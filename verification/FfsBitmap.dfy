/** Bitmaps of the FFS simulator: one row of owners for each group, -1 for free. */
module FfsBitmap {

  const FREE := -1

  type Bitmap = seq<seq<int>>

  /** A block or inode slot: group and index within it. */
  datatype Slot = Slot(group: int, index: int)

  predicate InBitmap(m: Bitmap, s: Slot) {
    0 <= s.group < |m| && 0 <= s.index < |m[s.group]|
  }

  function At(m: Bitmap, s: Slot): int
    requires InBitmap(m, s)
  {
    m[s.group][s.index]
  }

  function Put(m: Bitmap, s: Slot, owner: int): (r: Bitmap)
    requires InBitmap(m, s)
    ensures |r| == |m| && forall g :: 0 <= g < |m| ==> |r[g]| == |m[g]|
    ensures forall t :: InBitmap(m, t) ==> InBitmap(r, t) && At(r, t) == if t == s then owner else At(m, t)
  {
    m[s.group := m[s.group][s.index := owner]]
  }

  ghost predicate Shape(m: Bitmap, groups: int, perGroup: int) {
    |m| == groups && forall g :: 0 <= g < |m| ==> |m[g]| == perGroup
  }

  function FreeInRow(row: seq<int>): nat {
    if row == [] then 0 else (if row[|row| - 1] == FREE then 1 else 0) + FreeInRow(row[..|row| - 1])
  }

  function FreeIn(m: Bitmap): nat {
    if m == [] then 0 else FreeInRow(m[|m| - 1]) + FreeIn(m[..|m| - 1])
  }

  lemma {:induction false} RowPut(row: seq<int>, i: int, v: int)
    requires 0 <= i < |row|
    ensures FreeInRow(row[i := v]) == FreeInRow(row)
      - (if row[i] == FREE then 1 else 0) + (if v == FREE then 1 else 0)
  {
    var last := |row| - 1;
    if i == last {
      assert row[i := v][..last] == row[..last];
    } else {
      assert row[i := v][..last] == row[..last][i := v];
      RowPut(row[..last], i, v);
    }
  }

  lemma {:induction false} RowsPut(m: Bitmap, g: int, row: seq<int>)
    requires 0 <= g < |m|
    ensures FreeIn(m[g := row]) == FreeIn(m) - FreeInRow(m[g]) + FreeInRow(row)
  {
    var last := |m| - 1;
    if g == last {
      assert m[g := row][..last] == m[..last];
    } else {
      assert m[g := row][..last] == m[..last][g := row];
      RowsPut(m[..last], g, row);
    }
  }

  /** Taking a slot costs one free slot, giving it back gains one. */
  lemma PutCounts(m: Bitmap, s: Slot, owner: int)
    requires InBitmap(m, s)
    ensures FreeIn(Put(m, s, owner)) == FreeIn(m)
      - (if At(m, s) == FREE then 1 else 0) + (if owner == FREE then 1 else 0)
  {
    RowPut(m[s.group], s.index, owner);
    RowsPut(m, s.group, m[s.group][s.index := owner]);
  }

  lemma {:induction false} RowHasFree(row: seq<int>)
    ensures FreeInRow(row) > 0 <==> exists i :: 0 <= i < |row| && row[i] == FREE
    ensures FreeInRow(row) <= |row|
  {
    if row != [] {
      var last := |row| - 1;
      RowHasFree(row[..last]);
      if row[last] != FREE && FreeInRow(row) > 0 {
        var i :| 0 <= i < last && row[..last][i] == FREE;
        assert row[i] == FREE;
      }
      if exists i :: 0 <= i < |row| && row[i] == FREE {
        var i :| 0 <= i < |row| && row[i] == FREE;
        if i < last { assert row[..last][i] == FREE; }
      }
    }
  }

  lemma {:induction false} SomeRowHasFree(m: Bitmap)
    ensures FreeIn(m) > 0 <==> exists g :: 0 <= g < |m| && FreeInRow(m[g]) > 0
  {
    if m != [] {
      var last := |m| - 1;
      SomeRowHasFree(m[..last]);
      if FreeInRow(m[last]) == 0 && FreeIn(m) > 0 {
        var g :| 0 <= g < last && FreeInRow(m[..last][g]) > 0;
        assert FreeInRow(m[g]) > 0;
      }
      if exists g :: 0 <= g < |m| && FreeInRow(m[g]) > 0 {
        var g :| 0 <= g < |m| && FreeInRow(m[g]) > 0;
        if g < last { assert FreeInRow(m[..last][g]) > 0; }
      }
    }
  }

  // ----- taking a list of slots

  ghost predicate DistinctSlots(s: seq<Slot>) {
    forall i, j :: 0 <= i < j < |s| ==> s[i] != s[j]
  }

  /** `after` is `before` with exactly the slots of `taken`, all free before and all
      different, given to `owner`. */
  ghost predicate Took(before: Bitmap, after: Bitmap, taken: seq<Slot>, owner: int) {
    && |after| == |before| && (forall g :: 0 <= g < |before| ==> |after[g]| == |before[g]|)
    && DistinctSlots(taken)
    && (forall k :: 0 <= k < |taken| ==> InBitmap(before, taken[k]) && At(before, taken[k]) == FREE)
    && (forall s :: InBitmap(before, s) ==>
          InBitmap(after, s) && At(after, s) == if s in taken then owner else At(before, s))
  }

  lemma TookOneMore(before: Bitmap, after: Bitmap, taken: seq<Slot>, owner: int, s: Slot)
    requires Took(before, after, taken, owner) && owner != FREE
    requires InBitmap(after, s) && At(after, s) == FREE
    ensures Took(before, Put(after, s, owner), taken + [s], owner)
    ensures FreeIn(Put(after, s, owner)) == FreeIn(after) - 1
  {
    PutCounts(after, s, owner);
    assert InBitmap(before, s);
    var after' := Put(after, s, owner);
    assert s !in taken;
    forall t | InBitmap(before, t)
      ensures InBitmap(after', t) && At(after', t) == if t in taken + [s] then owner else At(before, t)
    {
      assert InBitmap(after, t);
    }
    forall k | 0 <= k < |taken + [s]|
      ensures InBitmap(before, (taken + [s])[k]) && At(before, (taken + [s])[k]) == FREE
    {
      if k < |taken| { assert (taken + [s])[k] == taken[k]; }
    }
  }
}
