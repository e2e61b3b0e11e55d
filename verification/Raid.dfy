/** The RAID 4 and 5 simulator: it splits requests into stripes and issues the physical
    reads and writes. What the disks hold is kept beside it. */
module Raid {
  import opened Arithmetic
  import opened RaidMap
  import opened RaidParity

  datatype IO = Read(place: Place) | Write(place: Place)

  function Reads(g: Geometry, from: int, to: int): seq<IO>
    requires GeometryOk(g)
  {
    seq(if from < to then to - from else 0, i => Read(Bmap(g, from + i)))
  }

  function Writes(g: Geometry, from: int, to: int): seq<IO>
    requires GeometryOk(g)
  {
    seq(if from < to then to - from else 0, i => Write(Bmap(g, from + i)))
  }

  function ParityReads(pdisk: int, offs: seq<int>): seq<IO> {
    seq(|offs|, i requires 0 <= i < |offs| => Read(Place(pdisk, offs[i])))
  }

  function ParityWrites(pdisk: int, offs: seq<int>): seq<IO> {
    seq(|offs|, i requires 0 <= i < |offs| => Write(Place(pdisk, offs[i])))
  }

  /** The offsets that a write touches, each once, in the order of its first blocks. */
  ghost predicate OffsOk(g: Geometry, offs: seq<int>, begin: int, end: int)
    requires GeometryOk(g)
  {
    && (forall i, j :: 0 <= i < j < |offs| ==> offs[i] != offs[j])
    && (forall i :: 0 <= i < |offs| ==> offs[i] == Bmap(g, begin + i).off)
    && (forall o :: o in offs <==> Touched(g, o, begin, end))
  }

  /** The reads that go before the writes of a piece, and those writes. */
  function PieceReads(g: Geometry, stripe: int, begin: int, end: int, offs: seq<int>): seq<IO>
    requires GeometryOk(g)
  {
    var start := stripe * BlocksInStripe(g);
    if Subtractive(g, begin, end) then Reads(g, begin, end) + ParityReads(ParityDisk(g, stripe), offs)
    else Reads(g, start, begin) + Reads(g, end, start + BlocksInStripe(g))
  }

  function PieceWrites(g: Geometry, stripe: int, begin: int, end: int, offs: seq<int>): seq<IO>
    requires GeometryOk(g)
  {
    Writes(g, begin, end) + ParityWrites(ParityDisk(g, stripe), offs)
  }

  /** A full stripe is written without reading anything. */
  lemma FullStripeReadsNothing(g: Geometry, stripe: int, begin: int, end: int, offs: seq<int>)
    requires GeometryOk(g) && InStripe(g, stripe, begin, end) && end - begin == BlocksInStripe(g)
    ensures PieceReads(g, stripe, begin, end, offs) == []
  {
    assert BlocksInStripe(g) >= 1 by { StripeOf(g, 0); }
  }

  /** The offsets that a piece touches are as many as its blocks, or as a chunk's if those
      are fewer. */
  lemma OffsetCount(g: Geometry, stripe: int, begin: int, end: int, offs: seq<int>)
    requires GeometryOk(g) && InStripe(g, stripe, begin, end) && OffsOk(g, offs, begin, end)
    ensures |offs| == if end - begin < g.chunk then end - begin else g.chunk
  {
    hide Bmap, Touched, BlocksInStripe;
    var n := if end - begin < g.chunk then end - begin else g.chunk;
    var firsts := seq(n, i requires 0 <= i < n => Bmap(g, begin + i).off);
    forall i, j | 0 <= i < j < n ensures firsts[i] != firsts[j] {
      OffsetIn(g, stripe, begin + i);
      OffsetIn(g, stripe, begin + j);
      Apart(begin + i, begin + j, g.chunk);
    }
    forall o ensures o in firsts <==> o in offs {
      if o in offs {
        var b := TouchedBy(g, o, begin, end);
        var i := (b - begin) % g.chunk;
        Divided(b - begin, g.chunk);
        SameOffset(g, stripe, b, begin + i, (b - begin) / g.chunk);
        assert firsts[i] == o;
      }
      if o in firsts {
        var i :| 0 <= i < n && firsts[i] == o;
        TouchedAt(g, begin + i, begin, end);
      }
    }
    SameCount(firsts, offs);
  }

  lemma TouchedAt(g: Geometry, b: int, begin: int, end: int)
    requires GeometryOk(g) && begin <= b < end
    ensures Touched(g, Bmap(g, b).off, begin, end)
  {
    hide Bmap;
  }

  /** Where in its stripe's rows a block lies. */
  lemma OffsetIn(g: Geometry, stripe: int, b: int)
    requires GeometryOk(g) && InStripe(g, stripe, b, b + 1)
    ensures Bmap(g, b).off == stripe * g.chunk + b % g.chunk
  {
    hide Bmap, BlocksInStripe;
    BmapParts(g, b);
    Quotient(b, BlocksInStripe(g), stripe, b - stripe * BlocksInStripe(g));
    Divided(Bmap(g, b).off, g.chunk);
  }

  lemma SameOffset(g: Geometry, stripe: int, b: int, c: int, q: int)
    requires GeometryOk(g) && InStripe(g, stripe, b, b + 1) && InStripe(g, stripe, c, c + 1) && b == q * g.chunk + c
    ensures Bmap(g, b).off == Bmap(g, c).off
  {
    hide Bmap, InStripe;
    OffsetIn(g, stripe, b);
    OffsetIn(g, stripe, c);
    Divided(c, g.chunk);
    Distribute(q, c / g.chunk, g.chunk);
    Quotient(b, g.chunk, q + c / g.chunk, c % g.chunk);
  }

  /** Two lists without repetition that have the same members are of one length. */
  lemma SameCount(a: seq<int>, b: seq<int>)
    requires forall i, j :: 0 <= i < j < |a| ==> a[i] != a[j]
    requires forall i, j :: 0 <= i < j < |b| ==> b[i] != b[j]
    requires forall x :: x in a <==> x in b
    ensures |a| == |b|
  {
    Members(a);
    Members(b);
    assert (set x | x in a) == (set x | x in b);
  }

  lemma {:induction false} Members(a: seq<int>)
    requires forall i, j :: 0 <= i < j < |a| ==> a[i] != a[j]
    ensures |set x | x in a| == |a|
  {
    if a != [] {
      var rest := a[..|a| - 1];
      Members(rest);
      assert a == rest + [a[|a| - 1]];
      assert (set x | x in a) == (set x | x in rest) + {a[|a| - 1]};
    }
  }

  /** The physical I/O of a piece one by one: its blocks in order, then the parity of its rows
      in the order of its first blocks, first read and then written; or else what the stripe
      holds before and after it, read in order, and no parity. */
  lemma PieceIo(g: Geometry, stripe: int, begin: int, end: int, offs: seq<int>, i: nat)
    requires GeometryOk(g) && InStripe(g, stripe, begin, end) && OffsOk(g, offs, begin, end)
    ensures var n, first, parity := end - begin, stripe * BlocksInStripe(g), ParityPlace(g, stripe * g.chunk).disk;
      var rows := if n < g.chunk then n else g.chunk;
      var before, after := PieceReads(g, stripe, begin, end, offs), PieceWrites(g, stripe, begin, end, offs);
      && |after| == n + rows
      && (i < n ==> after[i] == Write(Bmap(g, begin + i)))
      && (i < rows ==> after[n + i] == Write(Place(parity, Bmap(g, begin + i).off)))
      && if n + 1 <= BlocksInStripe(g) - n then
           && |before| == n + rows
           && (i < n ==> before[i] == Read(Bmap(g, begin + i)))
           && (i < rows ==> before[n + i] == Read(Place(parity, Bmap(g, begin + i).off)))
         else
           && |before| == BlocksInStripe(g) - n
           && (first + i < begin ==> before[i] == Read(Bmap(g, first + i)))
           && (end + i < first + BlocksInStripe(g) ==> before[begin - first + i] == Read(Bmap(g, end + i)))
  {
    hide Bmap, Touched, BlocksInStripe, ParityDisk;
    OffsetCount(g, stripe, begin, end, offs);
    Quotient(stripe * g.chunk, g.chunk, stripe, 0);
  }

  /** How many reads a piece takes: either the blocks it overwrites and the parity of their
      rows, or the rest of its stripe. The simulator compares as if the parity were one block,
      so it takes the way with more reads if and only if the parity of the rows makes the
      difference. */
  lemma ReadCount(g: Geometry, stripe: int, begin: int, end: int, offs: seq<int>)
    requires GeometryOk(g) && InStripe(g, stripe, begin, end) && OffsOk(g, offs, begin, end)
    ensures var n, rest := end - begin, BlocksInStripe(g) - (end - begin);
      var rows := if n < g.chunk then n else g.chunk;
      var taken, other := |PieceReads(g, stripe, begin, end, offs)|, if n + 1 <= rest then rest else n + rows;
      && taken == (if n + 1 <= rest then n + rows else rest)
      && (other < taken <==> n + 1 <= rest < n + rows)
  {
    hide Bmap, Touched;
    OffsetCount(g, stripe, begin, end, offs);
  }

  /** So with chunks of one block it always takes the way with fewer. */
  lemma FewestReads(g: Geometry, stripe: int, begin: int, end: int, offs: seq<int>)
    requires GeometryOk(g) && InStripe(g, stripe, begin, end) && begin < end && g.chunk == 1
    requires OffsOk(g, offs, begin, end)
    ensures var n, rest := end - begin, BlocksInStripe(g) - (end - begin);
      |PieceReads(g, stripe, begin, end, offs)| == if n + 1 <= rest then n + 1 else rest
  {
    hide Bmap, Touched;
    ReadCount(g, stripe, begin, end, offs);
  }

  // ----- storing

  function Put(data: Contents, p: Place, v: bv8): Contents {
    q => if q == p then v else data(q)
  }

  /** The blocks from begin to `to` have been stored, and nothing else. */
  ghost predicate StoredOnly(g: Geometry, before: Contents, after: Contents, begin: int, to: int, fill: int -> bv8)
    requires GeometryOk(g)
  {
    forall p :: OnDisks(g, p) ==> after(p) == if Written(g, p, begin, to) then fill(BlockAt(g, p)) else before(p)
  }

  lemma StoreOne(g: Geometry, before: Contents, after: Contents, begin: int, b: int, fill: int -> bv8)
    requires GeometryOk(g) && 0 <= begin <= b && StoredOnly(g, before, after, begin, b, fill)
    ensures StoredOnly(g, before, Put(after, Bmap(g, b), fill(b)), begin, b + 1, fill)
  {
    hide Bmap, BlockAt, IsParity;
    var now := Put(after, Bmap(g, b), fill(b));
    forall p | OnDisks(g, p) ensures now(p) == if Written(g, p, begin, b + 1) then fill(BlockAt(g, p)) else before(p) {
      PlaceOf(g, b, p);
    }
  }

  lemma StoreNone(g: Geometry, data: Contents, begin: int, fill: int -> bv8)
    requires GeometryOk(g)
    ensures StoredOnly(g, data, data, begin, begin, fill)
  {
  }

  /** The parity at these offsets has been stored, and nothing else. */
  ghost predicate ParityOnly(g: Geometry, before: Contents, after: Contents, offs: seq<int>, seen: map<Place, bv8>,
                             begin: int, end: int, fill: int -> bv8)
    requires GeometryOk(g)
  {
    forall p :: OnDisks(g, p) ==>
      after(p) == if IsParity(g, p) && p.off in offs then NewParity(g, seen, begin, end, fill, p.off) else before(p)
  }

  lemma ParityOne(g: Geometry, before: Contents, after: Contents, offs: seq<int>, seen: map<Place, bv8>,
                  begin: int, end: int, fill: int -> bv8, o: int)
    requires GeometryOk(g) && ParityOnly(g, before, after, offs, seen, begin, end, fill)
    ensures ParityOnly(g, before, Put(after, ParityPlace(g, o), NewParity(g, seen, begin, end, fill, o)),
      offs + [o], seen, begin, end, fill)
  {
    hide NewParity, ParityDisk;
  }

  lemma ParityNone(g: Geometry, data: Contents, seen: map<Place, bv8>, begin: int, end: int, fill: int -> bv8)
    requires GeometryOk(g)
    ensures ParityOnly(g, data, data, [], seen, begin, end, fill)
  {
  }

  /** Storing the blocks and then the parity of the rows touched does both. */
  lemma BothStored(g: Geometry, before: Contents, mid: Contents, after: Contents, offs: seq<int>, seen: map<Place, bv8>,
                   begin: int, end: int, fill: int -> bv8)
    requires GeometryOk(g) && StoredOnly(g, before, mid, begin, end, fill)
    requires ParityOnly(g, mid, after, offs, seen, begin, end, fill) && OffsOk(g, offs, begin, end)
    ensures Stored(g, before, after, begin, end, fill) && ParityStored(g, before, after, seen, begin, end, fill)
  {
    hide NewParity, ParityDisk, BlockAt, Touched;
    forall o | o >= 0
      ensures after(ParityPlace(g, o)) ==
        if Touched(g, o, begin, end) then NewParity(g, seen, begin, end, fill, o) else before(ParityPlace(g, o))
    {
      ParityIsOnDisks(g, o);
    }
  }

  // ----- offsets

  lemma NoOffs(g: Geometry, begin: int)
    requires GeometryOk(g)
    ensures OffsOk(g, [], begin, begin)
  {
  }

  lemma OneMoreOff(g: Geometry, offs: seq<int>, begin: int, b: int, stripe: int)
    requires GeometryOk(g) && InStripe(g, stripe, begin, b + 1) && begin <= b && OffsOk(g, offs, begin, b)
    ensures var off := Bmap(g, b).off;
      OffsOk(g, if off in offs then offs else offs + [off], begin, b + 1)
  {
    hide Bmap, Touched, BlocksInStripe;
    forall o ensures Touched(g, o, begin, b + 1) <==> Touched(g, o, begin, b) || Bmap(g, b).off == o {
      TouchedMore(g, o, begin, b);
    }
    OffsetCount(g, stripe, begin, b, offs);
    if |offs| < b - begin { OffsetAgain(g, stripe, offs, begin, b); }
  }

  /** A block a chunk or more into the piece has an offset that is there already. */
  lemma OffsetAgain(g: Geometry, stripe: int, offs: seq<int>, begin: int, b: int)
    requires GeometryOk(g) && InStripe(g, stripe, begin, b + 1) && begin + g.chunk <= b && OffsOk(g, offs, begin, b)
    ensures Bmap(g, b).off in offs
  {
    hide Bmap, Touched, BlocksInStripe;
    var c := b - g.chunk;
    SameOffset(g, stripe, b, c, 1);
    TouchedAt(g, c, begin, b);
  }

  lemma TouchedMore(g: Geometry, o: int, begin: int, b: int)
    requires GeometryOk(g) && begin <= b
    ensures Touched(g, o, begin, b + 1) <==> Touched(g, o, begin, b) || Bmap(g, b).off == o
  {
    hide Bmap;
    if Touched(g, o, begin, b) {
      var c :| begin <= c < b && Bmap(g, c).off == o;
      assert begin <= c < b + 1;
    }
  }

  /** The rows that a piece touches have their parity on one disk, where it looks. */
  lemma PieceParity(g: Geometry, stripe: int, begin: int, end: int, o: int)
    requires GeometryOk(g) && InStripe(g, stripe, begin, end) && Touched(g, o, begin, end)
    ensures o >= 0 && ParityPlace(g, o) == Place(ParityDisk(g, stripe), o)
  {
    hide ParityDisk, Bmap, BlocksInStripe;
    var b := TouchedBy(g, o, begin, end);
    BmapParts(g, b);
    Quotient(b, BlocksInStripe(g), stripe, b - stripe * BlocksInStripe(g));
  }

  /** Successive writes of adjoining pieces are one write of both. */
  lemma StoredJoin(g: Geometry, d0: Contents, d1: Contents, d2: Contents, a: int, b: int, c: int, fill: int -> bv8)
    requires GeometryOk(g) && a <= b <= c && Stored(g, d0, d1, a, b, fill) && Stored(g, d1, d2, b, c, fill)
    ensures Stored(g, d0, d2, a, c, fill)
  {
    hide IsParity, BlockAt;
  }

  lemma StoredNothing(g: Geometry, d: Contents, a: int, fill: int -> bv8)
    requires GeometryOk(g)
    ensures Stored(g, d, d, a, a, fill)
  {
  }

  /** What the reader of a block gets. */
  lemma StoredReads(g: Geometry, before: Contents, after: Contents, begin: int, end: int, fill: int -> bv8, b: int)
    requires GeometryOk(g) && b >= 0 && Stored(g, before, after, begin, end, fill)
    ensures after(Bmap(g, b)) == if begin <= b < end then fill(b) else before(Bmap(g, b))
  {
    hide Bmap, IsParity, BlockAt;
    BlockRoundTrip(g, b);
  }

  // ----- pieces

  /** A piece of a request: a stripe and the blocks written in it. */
  datatype Piece = Piece(stripe: int, begin: int, end: int)

  /** The pieces follow one another, are not empty and cover the blocks from a to b; each
      is within its stripe, and the stripes follow one another. */
  ghost predicate PiecesOk(g: Geometry, pieces: seq<Piece>, a: int, b: int) {
    && (forall i :: 0 <= i < |pieces| ==>
          InStripe(g, pieces[i].stripe, pieces[i].begin, pieces[i].end) && pieces[i].begin < pieces[i].end)
    && (forall i :: 0 <= i < |pieces| - 1 ==>
          pieces[i].end == pieces[i + 1].begin && pieces[i].stripe + 1 == pieces[i + 1].stripe)
    && (if pieces == [] then a == b else pieces[0].begin == a && pieces[|pieces| - 1].end == b)
  }

  /** The reads and writes of a whole request, piece by piece. */
  function RequestIo(g: Geometry, pieces: seq<Piece>, offs: seq<seq<int>>): seq<IO>
    requires GeometryOk(g) && |offs| == |pieces|
  {
    if pieces == [] then []
    else
      var last := |pieces| - 1;
      var p := pieces[last];
      RequestIo(g, pieces[..last], offs[..last])
      + PieceReads(g, p.stripe, p.begin, p.end, offs[last]) + PieceWrites(g, p.stripe, p.begin, p.end, offs[last])
  }

  /** Each piece has the offsets it touches. */
  ghost predicate AllOffsOk(g: Geometry, pieces: seq<Piece>, offs: seq<seq<int>>)
    requires GeometryOk(g)
  {
    |offs| == |pieces| && forall i :: 0 <= i < |pieces| ==> OffsOk(g, offs[i], pieces[i].begin, pieces[i].end)
  }

  lemma NothingToIssue(g: Geometry)
    requires GeometryOk(g)
    ensures RequestIo(g, [], []) == []
  {
  }

  lemma RequestGrows(g: Geometry, pieces: seq<Piece>, offs: seq<seq<int>>, p: Piece, o: seq<int>)
    requires GeometryOk(g) && AllOffsOk(g, pieces, offs) && OffsOk(g, o, p.begin, p.end)
    ensures AllOffsOk(g, pieces + [p], offs + [o])
    ensures RequestIo(g, pieces + [p], offs + [o])
         == RequestIo(g, pieces, offs) + PieceReads(g, p.stripe, p.begin, p.end, o)
            + PieceWrites(g, p.stripe, p.begin, p.end, o)
  {
    hide OffsOk, PieceReads, PieceWrites;
    assert (pieces + [p])[..|pieces|] == pieces && (offs + [o])[..|offs|] == offs;
  }

  lemma OneMorePiece(g: Geometry, pieces: seq<Piece>, a: int, p: Piece)
    requires PiecesOk(g, pieces, a, p.begin) && InStripe(g, p.stripe, p.begin, p.end) && p.begin < p.end
    requires pieces != [] ==> pieces[|pieces| - 1].stripe + 1 == p.stripe
    ensures PiecesOk(g, pieces + [p], a, p.end)
  {
    hide InStripe;
  }

  /** Where the simulator ends the piece that it begins in a stripe. */
  lemma PieceEnd(g: Geometry, addr: int, size: int, stripe: int, begin: int, end: int)
    requires GeometryOk(g) && addr >= 0 && size >= 1
    requires addr / BlocksInStripe(g) <= stripe <= (addr + size - 1) / BlocksInStripe(g)
    requires begin == if stripe == addr / BlocksInStripe(g) then addr else stripe * BlocksInStripe(g)
    requires var n, left, stop := BlocksInStripe(g), addr + size - begin,
      stripe * BlocksInStripe(g) + BlocksInStripe(g);
      var e := if left >= n then begin + n else begin + left;
      end == if e >= stop then stop else e
    ensures InStripe(g, stripe, begin, end) && begin < end
    ensures end == if stripe == (addr + size - 1) / BlocksInStripe(g) then addr + size
                   else stripe * BlocksInStripe(g) + BlocksInStripe(g)
  {
    hide BlocksInStripe;
    StripeOf(g, addr);
    var n := BlocksInStripe(g);
    Divided(addr, n);
    Divided(addr + size - 1, n);
    Between(addr / n, stripe, (addr + size - 1) / n, n);
  }

  lemma Between(x: int, y: int, z: int, n: int)
    requires 0 <= x <= y <= z && n >= 1
    ensures 0 <= x * n && x * n <= y * n <= z * n && (y < z ==> y * n + n <= z * n) && (x < y ==> x * n + n <= y * n)
  {
    Times(0, x, n);
    Times(x, y, n);
    Times(y, z, n);
  }

  class Array {
    const g: Geometry
    var io: seq<IO>
    ghost var data: Contents
    /** What has been read for the piece in hand. */
    ghost var seen: map<Place, bv8>

    ghost predicate Valid()
      reads this
    {
      GeometryOk(g) && ParityOk(g, data)
    }

    /** An array of zeroed disks. */
    constructor (numDisks: int, chunkSize: int, layout: Layout)
      requires numDisks >= 2 && chunkSize >= 1
      ensures Valid() && g == Geometry(numDisks, chunkSize, layout) && io == []
    {
      g := Geometry(numDisks, chunkSize, layout);
      io := [];
      data := p => 0;
      seen := map[];
      new;
      forall o | o >= 0 ensures RowOk(g, data, o) { ZeroRow(data, o, g.disks); }
    }

    method DoSingleRead(p: Place)
      modifies this`io, this`seen
      ensures io == old(io) + [Read(p)] && seen == old(seen)[p := data(p)]
    {
      io := io + [Read(p)];
      seen := seen[p := data(p)];
    }

    method DoSingleWrite(p: Place, ghost v: bv8)
      modifies this`io, this`data
      ensures io == old(io) + [Write(p)] && data == Put(old(data), p, v)
    {
      io := io + [Write(p)];
      data := Put(data, p, v);
    }

    method ReadBlocks(from: int, to: int)
      requires GeometryOk(g) && SeenIsTrue(data, seen)
      modifies this`io, this`seen
      ensures io == old(io) + Reads(g, from, to)
      ensures SeenIsTrue(data, seen) && KnowsBlocks(g, data, seen, from, to)
      ensures forall p :: p in old(seen) ==> p in seen
    {
      hide Bmap;
      ghost var was := io;
      for b := from to if from < to then to else from
        invariant io == was + Reads(g, from, b)
        invariant SeenIsTrue(data, seen) && KnowsBlocks(g, data, seen, from, b)
        invariant forall p :: p in old(seen) ==> p in seen
      {
        DoSingleRead(Bmap(g, b));
        assert Reads(g, from, b + 1) == Reads(g, from, b) + [Read(Bmap(g, b))];
      }
    }

    /** The distinct offsets of the blocks, in the order in which they come. */
    method Offsets(begin: int, end: int, ghost stripe: int) returns (offs: seq<int>)
      requires GeometryOk(g) && InStripe(g, stripe, begin, end)
      ensures OffsOk(g, offs, begin, end)
    {
      hide Bmap, Touched, OffsOk;
      offs := [];
      NoOffs(g, begin);
      for b := begin to end
        invariant OffsOk(g, offs, begin, b)
      {
        OneMoreOff(g, offs, begin, b, stripe);
        var off := Bmap(g, b).off;
        if off !in offs { offs := offs + [off]; }
      }
    }

    method ReadParity(pdisk: int, offs: seq<int>)
      requires SeenIsTrue(data, seen)
      modifies this`io, this`seen
      ensures io == old(io) + ParityReads(pdisk, offs)
      ensures SeenIsTrue(data, seen) && (forall p :: p in old(seen) ==> p in seen)
      ensures forall o :: o in offs ==> Place(pdisk, o) in seen
    {
      ghost var was := io;
      for i := 0 to |offs|
        invariant io == was + ParityReads(pdisk, offs[..i])
        invariant SeenIsTrue(data, seen) && (forall p :: p in old(seen) ==> p in seen)
        invariant forall o :: o in offs[..i] ==> Place(pdisk, o) in seen
      {
        DoSingleRead(Place(pdisk, offs[i]));
        assert offs[..i + 1] == offs[..i] + [offs[i]];
        assert ParityReads(pdisk, offs[..i + 1]) == ParityReads(pdisk, offs[..i]) + [Read(Place(pdisk, offs[i]))];
      }
      assert offs[..|offs|] == offs;
    }

    method WriteBlocks(begin: int, end: int, ghost fill: int -> bv8)
      requires GeometryOk(g) && 0 <= begin <= end
      modifies this`io, this`data
      ensures io == old(io) + Writes(g, begin, end)
      ensures StoredOnly(g, old(data), data, begin, end, fill)
    {
      hide Bmap, StoredOnly;
      ghost var was, before := io, data;
      StoreNone(g, data, begin, fill);
      for b := begin to end
        invariant io == was + Writes(g, begin, b) && StoredOnly(g, before, data, begin, b, fill)
      {
        StoreOne(g, before, data, begin, b, fill);
        DoSingleWrite(Bmap(g, b), fill(b));
        assert Writes(g, begin, b + 1) == Writes(g, begin, b) + [Write(Bmap(g, b))];
      }
    }

    /** The new parity is worked out from what has been read and what is written. */
    method WriteParity(stripe: int, offs: seq<int>, begin: int, end: int, ghost fill: int -> bv8)
      requires GeometryOk(g) && InStripe(g, stripe, begin, end) && OffsOk(g, offs, begin, end)
      modifies this`io, this`data
      ensures io == old(io) + ParityWrites(ParityDisk(g, stripe), offs)
      ensures ParityOnly(g, old(data), data, offs, seen, begin, end, fill)
    {
      hide ParityOnly, NewParity, ParityDisk, InStripe, Touched, OffsOk;
      var pdisk := Pmap(g, stripe);
      PmapIs(g, stripe);
      ghost var was, before := io, data;
      ParityNone(g, data, seen, begin, end, fill);
      for i := 0 to |offs|
        invariant io == was + ParityWrites(pdisk, offs[..i])
        invariant ParityOnly(g, before, data, offs[..i], seen, begin, end, fill)
      {
        OffTouched(g, offs, begin, end, i);
        PieceParity(g, stripe, begin, end, offs[i]);
        ParityOne(g, before, data, offs[..i], seen, begin, end, fill, offs[i]);
        DoSingleWrite(Place(pdisk, offs[i]), NewParity(g, seen, begin, end, fill, offs[i]));
        assert offs[..i + 1] == offs[..i] + [offs[i]];
        assert ParityWrites(pdisk, offs[..i + 1]) == ParityWrites(pdisk, offs[..i]) + [Write(Place(pdisk, offs[i]))];
      }
      assert offs[..|offs|] == offs;
    }

    /** The reads before a piece: what it overwrites and the parity of its rows, or the rest
        of the stripe, whichever seems less. */
    method ReadForPiece(stripe: int, begin: int, end: int, offs: seq<int>)
      requires GeometryOk(g) && InStripe(g, stripe, begin, end) && OffsOk(g, offs, begin, end)
      modifies this`io, this`seen
      ensures io == old(io) + PieceReads(g, stripe, begin, end, offs)
      ensures HasRead(g, data, seen, stripe, begin, end)
    {
      hide InStripe, Reads, ParityReads, OffsOk, HasRead, Pmap, ParityDisk;
      PieceBounds(g, stripe, begin, end);
      seen := map[];
      if end - begin + 1 <= BlocksInStripe(g) - (end - begin) {
        ReadBlocks(begin, end);
        PmapIs(g, stripe);
        ReadParity(Pmap(g, stripe), offs);
        HasReadOld(g, data, seen, stripe, begin, end, offs);
      } else {
        var stripeBegin := stripe * BlocksInStripe(g);
        ReadBlocks(stripeBegin, begin);
        ReadBlocks(end, stripeBegin + BlocksInStripe(g));
        HasReadRest(g, data, seen, stripe, begin, end);
      }
    }

    /** Write some blocks of a stripe, and the parity of the rows they touch. */
    method DoPartialWrite(stripe: int, begin: int, end: int, ghost fill: int -> bv8) returns (offs: seq<int>)
      requires Valid() && InStripe(g, stripe, begin, end)
      modifies this
      ensures Valid() && Stored(g, old(data), data, begin, end, fill)
      ensures OffsOk(g, offs, begin, end)
      ensures io == old(io) + PieceReads(g, stripe, begin, end, offs) + PieceWrites(g, stripe, begin, end, offs)
    {
      hide InStripe, PieceReads, Writes, ParityWrites, ParityOk, StoredOnly, ParityOnly, Stored, OffsOk, HasRead,
        ParityStored, ParityDisk;
      PieceBounds(g, stripe, begin, end);
      offs := Offsets(begin, end, stripe);
      ghost var before := data;
      ReadForPiece(stripe, begin, end, offs);
      WriteBlocks(begin, end, fill);
      ghost var mid := data;
      WriteParity(stripe, offs, begin, end, fill);
      BothStored(g, before, mid, data, offs, seen, begin, end, fill);
      PieceKeepsParity(g, before, data, seen, stripe, begin, end, fill);
    }

    /** A read request: one physical read for each block. */
    method EnqueueRead(addr: int, size: int)
      requires Valid()
      modifies this`io, this`seen
      ensures io == old(io) + Reads(g, addr, addr + size)
    {
      seen := map[];
      ReadBlocks(addr, addr + size);
    }

    /** A write request, one stripe at a time. */
    method EnqueueWrite(addr: int, size: int, ghost fill: int -> bv8)
      returns (ghost pieces: seq<Piece>, ghost offs: seq<seq<int>>)
      requires Valid() && addr >= 0 && size >= 1
      modifies this
      ensures Valid() && Stored(g, old(data), data, addr, addr + size, fill)
      ensures PiecesOk(g, pieces, addr, addr + size)
      ensures AllOffsOk(g, pieces, offs) && io == old(io) + RequestIo(g, pieces, offs)
    {
      hide BlocksInStripe, ParityOk, Stored, PiecesOk, InStripe, OffsOk, PieceReads, PieceWrites, AllOffsOk,
        RequestIo;
      NothingToIssue(g);
      StripeOf(g, 0);
      var blocksInStripe := BlocksInStripe(g);
      var initStripe := addr / blocksInStripe;
      var finalStripe := (addr + size - 1) / blocksInStripe;
      StripesOrdered(addr, addr + size - 1, blocksInStripe);
      var left := size;
      var begin := addr;
      pieces, offs := [], [];
      ghost var before, was := data, io;
      StoredNothing(g, data, addr, fill);
      NoPieces(g, addr);
      for stripe := initStripe to finalStripe + 1
        invariant Valid() && left == addr + size - begin && addr <= begin
        invariant begin == if stripe == initStripe then addr else if stripe == finalStripe + 1 then addr + size
                           else stripe * blocksInStripe
        invariant Stored(g, before, data, addr, begin, fill) && PiecesOk(g, pieces, addr, begin)
        invariant AllOffsOk(g, pieces, offs) && |offs| == |pieces| && io == was + RequestIo(g, pieces, offs)
        invariant |pieces| == stripe - initStripe && (pieces != [] ==> pieces[|pieces| - 1].stripe == stripe - 1)
      {
        var endOfStripe := stripe * blocksInStripe + blocksInStripe;
        var end := if left >= blocksInStripe then begin + blocksInStripe else begin + left;
        if end >= endOfStripe { end := endOfStripe; }
        PieceEnd(g, addr, size, stripe, begin, end);
        ghost var mid := data;
        var touched := DoPartialWrite(stripe, begin, end, fill);
        StoredJoin(g, before, mid, data, addr, begin, end, fill);
        OneMorePiece(g, pieces, addr, Piece(stripe, begin, end));
        RequestGrows(g, pieces, offs, Piece(stripe, begin, end), touched);
        pieces, offs := pieces + [Piece(stripe, begin, end)], offs + [touched];
        left := left - (end - begin);
        begin := end;
        NextStripe(stripe, blocksInStripe);
      }
    }
  }

  lemma {:induction false} ZeroRow(data: Contents, o: int, n: int)
    requires forall p :: data(p) == 0
    ensures Xor(Row(data, o), n) == 0
    decreases if n > 0 then n else 0
  {
    if n > 0 { ZeroRow(data, o, n - 1); }
  }

  ghost predicate SeenIsTrue(data: Contents, seen: map<Place, bv8>) {
    forall p :: p in seen ==> seen[p] == data(p)
  }

  lemma OffTouched(g: Geometry, offs: seq<int>, begin: int, end: int, i: int)
    requires GeometryOk(g) && OffsOk(g, offs, begin, end) && 0 <= i < |offs|
    ensures Touched(g, offs[i], begin, end)
  {
    hide Touched;
    assert offs[i] in offs;
  }

  lemma PieceBounds(g: Geometry, stripe: int, begin: int, end: int)
    requires InStripe(g, stripe, begin, end)
    ensures 0 <= begin <= end && stripe * BlocksInStripe(g) <= begin
    ensures end <= stripe * BlocksInStripe(g) + BlocksInStripe(g)
  {
  }

  lemma HasReadOld(g: Geometry, data: Contents, seen: map<Place, bv8>, stripe: int, begin: int, end: int,
                   offs: seq<int>)
    requires GeometryOk(g) && InStripe(g, stripe, begin, end) && Subtractive(g, begin, end)
    requires SeenIsTrue(data, seen) && OffsOk(g, offs, begin, end)
    requires forall b :: begin <= b < end ==> Bmap(g, b) in seen
    requires forall o :: o in offs ==> Place(ParityDisk(g, stripe), o) in seen
    ensures HasRead(g, data, seen, stripe, begin, end)
  {
    hide Bmap, ParityDisk, InStripe, Touched;
    forall o | Touched(g, o, begin, end) ensures Knows(data, seen, ParityPlace(g, o)) {
      PieceParity(g, stripe, begin, end, o);
    }
  }

  lemma HasReadRest(g: Geometry, data: Contents, seen: map<Place, bv8>, stripe: int, begin: int, end: int)
    requires GeometryOk(g) && InStripe(g, stripe, begin, end) && !Subtractive(g, begin, end) && SeenIsTrue(data, seen)
    requires forall b :: stripe * BlocksInStripe(g) <= b < begin ==> Bmap(g, b) in seen
    requires forall b :: end <= b < stripe * BlocksInStripe(g) + BlocksInStripe(g) ==> Bmap(g, b) in seen
    ensures HasRead(g, data, seen, stripe, begin, end)
  {
    hide Bmap;
  }

  lemma StripesOrdered(x: int, y: int, n: int)
    requires n >= 1 && 0 <= x <= y
    ensures 0 <= x / n <= y / n
  {
    Divided(x, n);
    Divided(y, n);
    Times(y / n, x / n, n);
  }

  lemma NoPieces(g: Geometry, a: int)
    ensures PiecesOk(g, [], a, a)
    ensures GeometryOk(g) ==> AllOffsOk(g, [], [])
  {
  }

  lemma NextStripe(stripe: int, n: int)
    ensures (stripe + 1) * n == stripe * n + n
  {
  }
}
