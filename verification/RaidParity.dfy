/** Parity as the exclusive or of a row, and what a partial-stripe write must read. */
module RaidParity {
  import opened Arithmetic
  import opened RaidMap

  /** What the disks hold: one byte of each block, parity being taken byte by byte. */
  type Contents = Place -> bv8

  function Xor(f: int -> bv8, n: int): bv8
    decreases if n > 0 then n else 0
  {
    if n <= 0 then 0 else Xor(f, n - 1) ^ f(n - 1)
  }

  function XorBut(f: int -> bv8, but: int, n: int): bv8
    decreases if n > 0 then n else 0
  {
    if n <= 0 then 0 else if n - 1 == but then XorBut(f, but, n - 1) else XorBut(f, but, n - 1) ^ f(n - 1)
  }

  lemma XorCancels(a: bv8, b: bv8, c: bv8)
    ensures (a ^ b) ^ c == (a ^ c) ^ b && a ^ a == 0 && (a ^ b) ^ b == a && a ^ 0 == a
    ensures a ^ b == 0 <==> a == b
  {
  }

  lemma {:induction false} XorSplits(f: int -> bv8, but: int, n: int)
    requires 0 <= but
    ensures Xor(f, n) == XorBut(f, but, n) ^ if but < n then f(but) else 0
    decreases if n > 0 then n else 0
  {
    if n > 0 {
      XorSplits(f, but, n - 1);
      XorCancels(XorBut(f, but, n - 1), if but < n - 1 then f(but) else 0, f(n - 1));
    }
  }

  lemma {:induction false} XorSame(f: int -> bv8, g: int -> bv8, but: int, n: int)
    requires forall k :: 0 <= k < n && k != but ==> f(k) == g(k)
    ensures XorBut(f, but, n) == XorBut(g, but, n)
    decreases if n > 0 then n else 0
  {
    if n > 0 { XorSame(f, g, but, n - 1); }
  }

  lemma FourWay(a: bv8, b: bv8, x: bv8, y: bv8)
    ensures (a ^ b) ^ (x ^ y) == (a ^ x) ^ (b ^ y)
  {
  }

  lemma {:induction false} XorOfDifference(f: int -> bv8, g: int -> bv8, d: int -> bv8, but: int, n: int)
    requires forall k :: 0 <= k < n && k != but ==> d(k) == f(k) ^ g(k)
    ensures XorBut(d, but, n) == XorBut(f, but, n) ^ XorBut(g, but, n)
    decreases if n > 0 then n else 0
  {
    if n > 0 {
      XorOfDifference(f, g, d, but, n - 1);
      FourWay(XorBut(f, but, n - 1), XorBut(g, but, n - 1), f(n - 1), g(n - 1));
    }
  }

  // ----- rows

  /** The blocks at one offset, by disk. */
  function Row(data: Contents, o: int): int -> bv8 {
    k => data(Place(k, o))
  }

  function ParityPlace(g: Geometry, o: int): Place
    requires GeometryOk(g)
  {
    Place(ParityDisk(g, o / g.chunk), o)
  }

  ghost predicate ParityOk(g: Geometry, data: Contents) {
    forall o :: o >= 0 ==> RowOk(g, data, o)
  }

  ghost predicate RowOk(g: Geometry, data: Contents, o: int) {
    Xor(Row(data, o), g.disks) == 0
  }

  /** What parity is for: any block of any disk is the exclusive or of the others in its
      row, so the contents of a lost disk can be had from the rest. */
  lemma LostDisk(g: Geometry, data: Contents, p: Place)
    requires GeometryOk(g) && OnDisks(g, p) && ParityOk(g, data)
    ensures data(p) == XorBut(Row(data, p.off), p.disk, g.disks)
  {
    assert RowOk(g, data, p.off);
    XorSplits(Row(data, p.off), p.disk, g.disks);
    XorCancels(XorBut(Row(data, p.off), p.disk, g.disks), data(p), 0);
  }

  // ----- a write of the blocks from begin to end

  predicate Written(g: Geometry, p: Place, begin: int, end: int)
    requires GeometryOk(g)
  {
    !IsParity(g, p) && begin <= BlockAt(g, p) < end
  }

  /** The write touches a row. */
  ghost predicate Touched(g: Geometry, o: int, begin: int, end: int)
    requires GeometryOk(g)
  {
    exists b :: begin <= b < end && Bmap(g, b).off == o
  }

  function Subtractive(g: Geometry, begin: int, end: int): bool {
    end - begin + 1 <= BlocksInStripe(g) - (end - begin)
  }

  function Known(seen: map<Place, bv8>, p: Place): bv8 {
    if p in seen then seen[p] else 0
  }

  /** The new parity of a row, from the blocks read and the data written, and nothing
      else. */
  function NewParity(g: Geometry, seen: map<Place, bv8>, begin: int, end: int, fill: int -> bv8, o: int): bv8
    requires GeometryOk(g)
  {
    var pdisk := ParityDisk(g, o / g.chunk);
    if Subtractive(g, begin, end) then
      Known(seen, ParityPlace(g, o)) ^ XorBut(Change(g, seen, begin, end, fill, o), pdisk, g.disks)
    else XorBut(After(g, seen, begin, end, fill, o), pdisk, g.disks)
  }

  function Change(g: Geometry, seen: map<Place, bv8>, begin: int, end: int, fill: int -> bv8, o: int): int -> bv8
    requires GeometryOk(g)
  {
    k => if Written(g, Place(k, o), begin, end) then Known(seen, Place(k, o)) ^ fill(BlockAt(g, Place(k, o))) else 0
  }

  function After(g: Geometry, seen: map<Place, bv8>, begin: int, end: int, fill: int -> bv8, o: int): int -> bv8
    requires GeometryOk(g)
  {
    k => if Written(g, Place(k, o), begin, end) then fill(BlockAt(g, Place(k, o))) else Known(seen, Place(k, o))
  }

  ghost predicate Knows(data: Contents, seen: map<Place, bv8>, p: Place) {
    p in seen && seen[p] == data(p)
  }

  ghost predicate KnowsBlocks(g: Geometry, data: Contents, seen: map<Place, bv8>, from: int, to: int)
    requires GeometryOk(g)
  {
    forall b :: from <= b < to ==> Knows(data, seen, Bmap(g, b))
  }

  ghost predicate KnowsParity(g: Geometry, data: Contents, seen: map<Place, bv8>, begin: int, end: int)
    requires GeometryOk(g)
  {
    forall o :: Touched(g, o, begin, end) ==> Knows(data, seen, ParityPlace(g, o))
  }

  /** The piece is within one stripe. */
  predicate InStripe(g: Geometry, stripe: int, begin: int, end: int) {
    0 <= stripe * BlocksInStripe(g) <= begin <= end <= stripe * BlocksInStripe(g) + BlocksInStripe(g)
  }

  /** What has been read before the piece is written. */
  ghost predicate HasRead(g: Geometry, data: Contents, seen: map<Place, bv8>, stripe: int, begin: int, end: int)
    requires GeometryOk(g)
  {
    var start := stripe * BlocksInStripe(g);
    if Subtractive(g, begin, end) then KnowsBlocks(g, data, seen, begin, end) && KnowsParity(g, data, seen, begin, end)
    else KnowsBlocks(g, data, seen, start, begin) && KnowsBlocks(g, data, seen, end, start + BlocksInStripe(g))
  }

  /** The data blocks after the write: the new ones where written, the old ones elsewhere. */
  ghost predicate Stored(g: Geometry, before: Contents, after: Contents, begin: int, end: int, fill: int -> bv8)
    requires GeometryOk(g)
  {
    forall p :: OnDisks(g, p) && !IsParity(g, p) ==>
      after(p) == if Written(g, p, begin, end) then fill(BlockAt(g, p)) else before(p)
  }

  /** The parity blocks after the write. */
  ghost predicate ParityStored(g: Geometry, before: Contents, after: Contents, seen: map<Place, bv8>,
                               begin: int, end: int, fill: int -> bv8)
    requires GeometryOk(g)
  {
    forall o :: o >= 0 ==>
      after(ParityPlace(g, o))
        == if Touched(g, o, begin, end) then NewParity(g, seen, begin, end, fill, o) else before(ParityPlace(g, o))
  }

  lemma ParityIsOnDisks(g: Geometry, o: int)
    requires GeometryOk(g) && o >= 0
    ensures OnDisks(g, ParityPlace(g, o)) && IsParity(g, ParityPlace(g, o))
    ensures 0 <= ParityDisk(g, o / g.chunk) < g.disks
  {
    ParityOnDisks(g, o / g.chunk);
  }

  lemma NotParity(g: Geometry, k: int, o: int)
    requires GeometryOk(g) && o >= 0 && 0 <= k < g.disks && k != ParityDisk(g, o / g.chunk)
    ensures OnDisks(g, Place(k, o)) && !IsParity(g, Place(k, o))
    ensures BlockAt(g, Place(k, o)) >= 0 && Bmap(g, BlockAt(g, Place(k, o))) == Place(k, o)
  {
    hide ParityDisk, Bmap, BlockAt;
    PlaceRoundTrip(g, Place(k, o));
  }

  /** A row that is not touched has no block written. */
  lemma UntouchedRow(g: Geometry, k: int, o: int, begin: int, end: int)
    requires GeometryOk(g) && o >= 0 && 0 <= k < g.disks && k != ParityDisk(g, o / g.chunk)
    requires !Touched(g, o, begin, end)
    ensures !Written(g, Place(k, o), begin, end)
  {
    hide ParityDisk, Bmap, BlockAt;
    NotParity(g, k, o);
  }

  /** All blocks of a row are in one stripe. */
  lemma RowInStripe(g: Geometry, k: int, o: int, stripe: int, begin: int, end: int)
    requires GeometryOk(g) && o >= 0 && 0 <= k < g.disks && k != ParityDisk(g, o / g.chunk)
    requires InStripe(g, stripe, begin, end) && Touched(g, o, begin, end)
    ensures var b := BlockAt(g, Place(k, o));
      stripe * BlocksInStripe(g) <= b < stripe * BlocksInStripe(g) + BlocksInStripe(g)
  {
    hide ParityDisk, Bmap, BlockAt, BlocksInStripe;
    NotParity(g, k, o);
    var b := BlockAt(g, Place(k, o));
    var c := TouchedBy(g, o, begin, end);
    BmapParts(g, b);
    BmapParts(g, c);
    var n := BlocksInStripe(g);
    Quotient(c, n, stripe, c - stripe * n);
    Divided(b, n);
  }

  lemma TouchedBy(g: Geometry, o: int, begin: int, end: int) returns (b: int)
    requires GeometryOk(g) && Touched(g, o, begin, end)
    ensures begin <= b < end && Bmap(g, b).off == o
  {
    b :| begin <= b < end && Bmap(g, b).off == o;
  }

  /** What the data blocks of a touched row will be, computed from what has been read. */
  lemma AdditiveRow(g: Geometry, data: Contents, after: Contents, seen: map<Place, bv8>, stripe: int, begin: int,
                    end: int,
                    fill: int -> bv8, o: int)
    requires GeometryOk(g) && InStripe(g, stripe, begin, end) && o >= 0 && Touched(g, o, begin, end)
    requires !Subtractive(g, begin, end) && HasRead(g, data, seen, stripe, begin, end)
    requires Stored(g, data, after, begin, end, fill)
    ensures XorBut(After(g, seen, begin, end, fill, o), ParityDisk(g, o / g.chunk), g.disks)
         == XorBut(Row(after, o), ParityDisk(g, o / g.chunk), g.disks)
  {
    hide ParityDisk, Bmap, BlockAt, BlocksInStripe, Xor, XorBut, Touched, IsParity;
    var pdisk := ParityDisk(g, o / g.chunk);
    var now := After(g, seen, begin, end, fill, o);
    forall k | 0 <= k < g.disks && k != pdisk ensures now(k) == Row(after, o)(k) {
      NotParity(g, k, o);
      RowInStripe(g, k, o, stripe, begin, end);
      var b := BlockAt(g, Place(k, o));
      if begin <= b < end {
        assert now(k) == fill(b) == after(Place(k, o));
      } else {
        assert Knows(data, seen, Bmap(g, b));
        assert now(k) == Known(seen, Place(k, o)) == after(Place(k, o));
      }
    }
    XorSame(now, Row(after, o), pdisk, g.disks);
  }

  lemma SubtractiveRow(g: Geometry, data: Contents, after: Contents, seen: map<Place, bv8>, stripe: int, begin: int,
                       end: int,
                       fill: int -> bv8, o: int)
    requires GeometryOk(g) && InStripe(g, stripe, begin, end) && o >= 0 && Touched(g, o, begin, end)
    requires Subtractive(g, begin, end) && HasRead(g, data, seen, stripe, begin, end)
    requires Stored(g, data, after, begin, end, fill) && RowOk(g, data, o)
    ensures Known(seen, ParityPlace(g, o)) ^ XorBut(Change(g, seen, begin, end, fill, o), ParityDisk(g,
      o / g.chunk), g.disks)
         == XorBut(Row(after, o), ParityDisk(g, o / g.chunk), g.disks)
  {
    hide ParityDisk, Bmap, BlockAt, BlocksInStripe, Xor, XorBut, Touched, IsParity;
    var pdisk := ParityDisk(g, o / g.chunk);
    var change := Change(g, seen, begin, end, fill, o);
    forall k | 0 <= k < g.disks && k != pdisk
      ensures change(k) == Row(data, o)(k) ^ Row(after, o)(k)
    {
      NotParity(g, k, o);
      var b := BlockAt(g, Place(k, o));
      if begin <= b < end { assert Knows(data, seen, Bmap(g, b)); }
      XorCancels(data(Place(k, o)), 0, 0);
    }
    XorOfDifference(Row(data, o), Row(after, o), change, pdisk, g.disks);
    assert Knows(data, seen, ParityPlace(g, o));
    ParityIsOnDisks(g, o);
    XorSplits(Row(data, o), pdisk, g.disks);
    Cancel(XorBut(Row(data, o), pdisk, g.disks), data(ParityPlace(g, o)), XorBut(Row(after, o), pdisk, g.disks));
  }

  lemma Cancel(rest: bv8, parity: bv8, now: bv8)
    ensures rest ^ parity == 0 ==> parity ^ (rest ^ now) == now
  {
  }

  lemma NewParityIs(g: Geometry, data: Contents, after: Contents, seen: map<Place, bv8>, stripe: int, begin: int,
                    end: int,
                    fill: int -> bv8, o: int)
    requires GeometryOk(g) && InStripe(g, stripe, begin, end) && o >= 0 && Touched(g, o, begin, end)
    requires HasRead(g, data, seen, stripe, begin, end)
    requires Stored(g, data, after, begin, end, fill) && RowOk(g, data, o)
    ensures NewParity(g, seen, begin, end, fill, o) == XorBut(Row(after, o), ParityDisk(g, o / g.chunk), g.disks)
  {
    hide ParityDisk, HasRead, Stored, Touched, RowOk, InStripe, Change, After;
    if Subtractive(g, begin, end) {
      SubtractiveRow(g, data, after, seen, stripe, begin, end, fill, o);
    } else {
      AdditiveRow(g, data, after, seen, stripe, begin, end, fill, o);
    }
  }

  /** A piece keeps every row's exclusive or: what it has read, with the data it writes, is
      enough to work out the parity of each row it touches. */
  lemma PieceKeepsParity(g: Geometry, data: Contents, after: Contents, seen: map<Place, bv8>, stripe: int,
                         begin: int, end: int,
                         fill: int -> bv8)
    requires GeometryOk(g) && InStripe(g, stripe, begin, end) && ParityOk(g, data)
    requires HasRead(g, data, seen, stripe, begin, end)
    requires Stored(g, data, after, begin, end, fill) && ParityStored(g, data, after, seen, begin, end, fill)
    ensures ParityOk(g, after)
  {
    hide ParityDisk, Bmap, BlockAt, BlocksInStripe, Xor, XorBut, Touched, NewParity, HasRead, InStripe, IsParity;
    forall o | o >= 0 ensures RowOk(g, after, o) {
      var pdisk := ParityDisk(g, o / g.chunk);
      assert RowOk(g, data, o);
      ParityIsOnDisks(g, o);
      XorSplits(Row(after, o), pdisk, g.disks);
      XorCancels(XorBut(Row(after, o), pdisk, g.disks), 0, 0);
      if Touched(g, o, begin, end) {
        NewParityIs(g, data, after, seen, stripe, begin, end, fill, o);
      } else {
        XorSplits(Row(data, o), pdisk, g.disks);
        UntouchedSame(g, data, after, begin, end, fill, o);
      }
    }
  }

  lemma UntouchedSame(g: Geometry, data: Contents, after: Contents, begin: int, end: int, fill: int -> bv8, o: int)
    requires GeometryOk(g) && o >= 0 && !Touched(g, o, begin, end) && Stored(g, data, after, begin, end, fill)
    ensures XorBut(Row(after, o), ParityDisk(g, o / g.chunk), g.disks)
      == XorBut(Row(data, o), ParityDisk(g, o / g.chunk), g.disks)
  {
    hide ParityDisk, Bmap, BlockAt, XorBut, Touched;
    var pdisk := ParityDisk(g, o / g.chunk);
    forall k | 0 <= k < g.disks && k != pdisk ensures Row(after, o)(k) == Row(data, o)(k) {
      NotParity(g, k, o);
      UntouchedRow(g, k, o, begin, end);
    }
    XorSame(Row(after, o), Row(data, o), pdisk, g.disks);
  }

  /** Nothing else needs reading: two arrays that agree on what was read need the same
      parity after the write, whatever else they hold. */
  lemma ReadsSuffice(g: Geometry, d1: Contents, d2: Contents, a1: Contents, a2: Contents, seen: map<Place, bv8>,
                     stripe: int, begin: int, end: int, fill: int -> bv8, o: int)
    requires GeometryOk(g) && InStripe(g, stripe, begin, end) && o >= 0 && Touched(g, o, begin, end)
    requires ParityOk(g, d1) && HasRead(g, d1, seen, stripe, begin, end) && Stored(g, d1, a1, begin, end, fill)
    requires ParityOk(g, a1)
    requires ParityOk(g, d2) && HasRead(g, d2, seen, stripe, begin, end) && Stored(g, d2, a2, begin, end, fill)
    requires ParityOk(g, a2)
    ensures a1(ParityPlace(g, o)) == a2(ParityPlace(g, o))
  {
    hide ParityDisk, HasRead, Stored, Touched, RowOk, InStripe, NewParity, OnDisks;
    assert RowOk(g, d1, o) && RowOk(g, d2, o);
    NewParityIs(g, d1, a1, seen, stripe, begin, end, fill, o);
    NewParityIs(g, d2, a2, seen, stripe, begin, end, fill, o);
    ParityIsOnDisks(g, o);
    LostDisk(g, a1, ParityPlace(g, o));
    LostDisk(g, a2, ParityPlace(g, o));
  }
}
