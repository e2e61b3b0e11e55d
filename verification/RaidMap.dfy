/** Where the RAID simulator puts logical blocks and parity, at levels 4 and 5. */
module RaidMap {
  import opened Arithmetic

  /** Level 4, and the left-asymmetric and left-symmetric layouts of level 5. */
  datatype Layout = Raid4 | LeftAsymmetric | LeftSymmetric

  datatype Geometry = Geometry(disks: int, chunk: int, layout: Layout)

  datatype Place = Place(disk: int, off: int)

  predicate GeometryOk(g: Geometry) {
    g.disks >= 2 && g.chunk >= 1
  }

  function BlocksInStripe(g: Geometry): int {
    (g.disks - 1) * g.chunk
  }

  /** The parity disk of a stripe. */
  function ParityDisk(g: Geometry, stripe: int): int
    requires GeometryOk(g)
  {
    if g.layout == Raid4 then g.disks - 1 else g.disks - 1 - stripe % g.disks
  }

  /** The disk of the d-th chunk of a stripe. */
  function DataDisk(g: Geometry, stripe: int, d: int): int
    requires GeometryOk(g)
  {
    match g.layout
    case Raid4 => d
    case LeftAsymmetric => if d >= ParityDisk(g, stripe) then d + 1 else d
    case LeftSymmetric => (d - stripe % g.disks) % g.disks
  }

  /** The place of a logical block. */
  function Bmap(g: Geometry, b: int): Place
    requires GeometryOk(g)
  {
    var cnum, coff := b / g.chunk, b % g.chunk;
    var ddsk := cnum / (g.disks - 1);
    Place(DataDisk(g, ddsk, cnum % (g.disks - 1)), ddsk * g.chunk + coff)
  }

  /** The parity disk of a stripe, as the simulator finds it: by mapping its first block. */
  function Pmap(g: Geometry, snum: int): int
    requires GeometryOk(g)
  {
    if g.layout == Raid4 then g.disks - 1
    else ParityDisk(g, snum * BlocksInStripe(g) / g.chunk / (g.disks - 1))
  }

  predicate OnDisks(g: Geometry, p: Place) {
    0 <= p.disk < g.disks && p.off >= 0
  }

  predicate IsParity(g: Geometry, p: Place)
    requires GeometryOk(g)
  {
    p.disk == ParityDisk(g, p.off / g.chunk)
  }

  /** Which chunk of its stripe a disk other than the parity disk holds. */
  function ChunkOn(g: Geometry, stripe: int, disk: int): int
    requires GeometryOk(g)
  {
    match g.layout
    case Raid4 => disk
    case LeftAsymmetric => if disk > ParityDisk(g, stripe) then disk - 1 else disk
    case LeftSymmetric => (disk + stripe % g.disks) % g.disks
  }

  /** The logical block at a place that holds no parity. */
  function BlockAt(g: Geometry, p: Place): int
    requires GeometryOk(g)
  {
    var stripe := p.off / g.chunk;
    (stripe * (g.disks - 1) + ChunkOn(g, stripe, p.disk)) * g.chunk + p.off % g.chunk
  }

  // ----- arithmetic

  /** Dividing by the chunk size and then by the chunks of a stripe is dividing by the
      blocks of a stripe. */
  lemma StripeOf(g: Geometry, b: int)
    requires GeometryOk(g) && b >= 0
    ensures BlocksInStripe(g) >= 1 && b / g.chunk / (g.disks - 1) == b / BlocksInStripe(g) >= 0
  {
    DivDiv(b, g.chunk, g.disks - 1);
  }

  lemma DivDiv(b: int, c: int, n: int)
    requires b >= 0 && c >= 1 && n >= 1
    ensures n * c >= 1 && b / c / n == b / (n * c) >= 0
  {
    var s, d, r := b / c / n, b / c % n, b % c;
    Divided(b, c);
    Divided(b / c, n);
    Products(s, d, n, c);
    Quotient(b, n * c, s, d * c + r);
  }

  lemma Products(s: int, d: int, n: int, c: int)
    requires c >= 1 && 0 <= d < n
    ensures n * c >= 1 && (s * n + d) * c == s * (n * c) + d * c && 0 <= d * c <= n * c - c
  {
    assert (s * n + d) * c == (s * n) * c + d * c;
    assert n * c - c == (n - 1) * c == d * c + (n - 1 - d) * c;
  }

  // ----- disks within a stripe

  /** The chunks of a stripe and the disks other than its parity disk correspond. */
  lemma ChunkRoundTrip(g: Geometry, stripe: int, d: int)
    requires GeometryOk(g) && 0 <= d < g.disks - 1
    ensures var disk := DataDisk(g, stripe, d);
      0 <= disk < g.disks && disk != ParityDisk(g, stripe) && ChunkOn(g, stripe, disk) == d
  {
    var n, col := g.disks, stripe % g.disks;
    Divided(stripe, n);
    if g.layout == LeftSymmetric {
      if d >= col {
        Quotient(d - col, n, 0, d - col);
        Quotient(d - col + col, n, 0, d);
      } else {
        Quotient(d - col, n, -1, d - col + n);
        Quotient(d - col + n + col, n, 1, d);
      }
    }
  }

  lemma DiskRoundTrip(g: Geometry, stripe: int, disk: int)
    requires GeometryOk(g) && 0 <= disk < g.disks && disk != ParityDisk(g, stripe)
    ensures var d := ChunkOn(g, stripe, disk);
      0 <= d < g.disks - 1 && DataDisk(g, stripe, d) == disk
  {
    var n, col := g.disks, stripe % g.disks;
    Divided(stripe, n);
    if g.layout == LeftSymmetric {
      if disk + col < n {
        Quotient(disk + col, n, 0, disk + col);
        Quotient(disk + col - col, n, 0, disk);
      } else {
        Quotient(disk + col, n, 1, disk + col - n);
        Quotient(disk + col - n - col, n, -1, disk);
      }
    }
  }

  lemma ParityOnDisks(g: Geometry, stripe: int)
    requires GeometryOk(g)
    ensures 0 <= ParityDisk(g, stripe) < g.disks
  {
    Divided(stripe, g.disks);
  }

  // ----- the mapping is a bijection

  lemma BmapParts(g: Geometry, b: int)
    requires GeometryOk(g) && b >= 0
    ensures var p, stripe := Bmap(g, b), b / BlocksInStripe(g);
      && BlocksInStripe(g) >= 1 && p.off / g.chunk == stripe >= 0 && p.off % g.chunk == b % g.chunk && p.off >= 0
      && p.disk == DataDisk(g, stripe, b / g.chunk % (g.disks - 1))
  {
    hide DataDisk;
    StripeOf(g, b);
    Divided(b, g.chunk);
    var stripe := b / g.chunk / (g.disks - 1);
    Quotient(stripe * g.chunk + b % g.chunk, g.chunk, stripe, b % g.chunk);
    assert stripe * g.chunk >= 0;
  }

  /** Every logical block has a place of its own that holds no parity. */
  lemma BlockRoundTrip(g: Geometry, b: int)
    requires GeometryOk(g) && b >= 0
    ensures var p := Bmap(g, b);
      OnDisks(g, p) && !IsParity(g, p) && BlockAt(g, p) == b
  {
    hide DataDisk, ChunkOn, ParityDisk, BlocksInStripe, Bmap;
    BmapParts(g, b);
    StripeOf(g, b);
    var stripe, d := b / BlocksInStripe(g), b / g.chunk % (g.disks - 1);
    Divided(b, g.chunk);
    Divided(b / g.chunk, g.disks - 1);
    ChunkRoundTrip(g, stripe, d);
  }

  /** Every place that holds no parity holds a logical block. */
  lemma PlaceRoundTrip(g: Geometry, p: Place)
    requires GeometryOk(g) && OnDisks(g, p) && !IsParity(g, p)
    ensures BlockAt(g, p) >= 0 && Bmap(g, BlockAt(g, p)) == p
  {
    hide DataDisk, ChunkOn, ParityDisk;
    var stripe, r := p.off / g.chunk, p.off % g.chunk;
    var d := ChunkOn(g, stripe, p.disk);
    Divided(p.off, g.chunk);
    DiskRoundTrip(g, stripe, p.disk);
    var cnum := stripe * (g.disks - 1) + d;
    assert stripe * (g.disks - 1) >= 0;
    assert cnum * g.chunk >= 0;
    Quotient(cnum * g.chunk + r, g.chunk, cnum, r);
    Quotient(cnum, g.disks - 1, stripe, d);
  }

  /** A place holds a given logical block or it does not: the two directions at once. */
  lemma PlaceOf(g: Geometry, b: int, p: Place)
    requires GeometryOk(g) && b >= 0 && OnDisks(g, p)
    ensures Bmap(g, b) == p <==> !IsParity(g, p) && BlockAt(g, p) == b
  {
    hide Bmap, BlockAt, IsParity;
    BlockRoundTrip(g, b);
    if !IsParity(g, p) { PlaceRoundTrip(g, p); }
  }

  /** All blocks of a stripe share the parity disk that the simulator finds for it. */
  lemma StripeSharesParity(g: Geometry, b: int)
    requires GeometryOk(g) && b >= 0
    ensures BlocksInStripe(g) >= 1
    ensures Pmap(g, b / BlocksInStripe(g)) == ParityDisk(g, Bmap(g, b).off / g.chunk)
    ensures Bmap(g, b).disk != Pmap(g, b / BlocksInStripe(g))
  {
    hide DataDisk, BlockAt, Bmap;
    BmapParts(g, b);
    PmapIs(g, b / BlocksInStripe(g));
    BlockRoundTrip(g, b);
  }

  lemma PmapIs(g: Geometry, snum: int)
    requires GeometryOk(g)
    ensures Pmap(g, snum) == ParityDisk(g, snum)
  {
    var n := g.disks - 1;
    assert snum * BlocksInStripe(g) == (snum * n) * g.chunk;
    Quotient(snum * BlocksInStripe(g), g.chunk, snum * n, 0);
    Quotient(snum * n, n, snum, 0);
  }

  /** Left-symmetric, chunk k is on disk k modulo the number of disks. */
  lemma SymmetricDisk(g: Geometry, b: int)
    requires GeometryOk(g) && b >= 0 && g.layout == LeftSymmetric
    ensures Bmap(g, b).disk == b / g.chunk % g.disks
  {
    var n := g.disks;
    var cnum := b / g.chunk;
    var s, d := cnum / (n - 1), cnum % (n - 1);
    Divided(cnum, n - 1);
    Divided(s, n);
    Divided(d - s % n, n);
    var q := (d - s % n) / n;
    assert cnum == (s - s / n + q) * n + (d - s % n) % n by {
      assert s * (n - 1) == s * n - s;
      assert (s - s / n + q) * n == s * n - (s / n) * n + q * n;
    }
    Quotient(cnum, n, s - s / n + q, (d - s % n) % n);
  }

  /** So as many consecutive chunks as there are disks are all on different disks. */
  lemma ConsecutiveChunks(g: Geometry, a: int, b: int)
    requires GeometryOk(g) && 0 <= a && 0 <= b && g.layout == LeftSymmetric
    requires a / g.chunk < b / g.chunk < a / g.chunk + g.disks
    ensures Bmap(g, a).disk != Bmap(g, b).disk
  {
    hide Bmap;
    SymmetricDisk(g, a);
    SymmetricDisk(g, b);
    Apart(a / g.chunk, b / g.chunk, g.disks);
  }

  // ----- where parity and chunks are

  /** Level 4 has its parity on the last disk. At level 5 so has the first stripe, and each
      further stripe one disk lower, round and round. */
  lemma ParityRotates(g: Geometry, snum: int)
    requires GeometryOk(g) && snum >= 0
    ensures g.layout == Raid4 ==> Pmap(g, snum) == g.disks - 1
    ensures Pmap(g, 0) == g.disks - 1
    ensures g.layout != Raid4 ==> Pmap(g, snum + 1) == if Pmap(g, snum) == 0 then g.disks - 1 else Pmap(g, snum) - 1
  {
    hide Pmap;
    var n := g.disks;
    PmapIs(g, 0);
    PmapIs(g, snum);
    PmapIs(g, snum + 1);
    Divided(snum, n);
    Quotient(0, n, 0, 0);
    if snum % n == n - 1 {
      Quotient(snum + 1, n, snum / n + 1, 0);
    } else {
      Quotient(snum + 1, n, snum / n, snum % n + 1);
    }
  }

  /** The number of a block by stripe, chunk in the stripe and block in the chunk. */
  function BlockNumber(g: Geometry, snum: int, d: int, r: int): int {
    (snum * (g.disks - 1) + d) * g.chunk + r
  }

  lemma NumberParts(g: Geometry, snum: int, d: int, r: int)
    requires GeometryOk(g) && snum >= 0 && 0 <= d < g.disks - 1 && 0 <= r < g.chunk
    ensures var b := BlockNumber(g, snum, d, r);
      b / g.chunk / (g.disks - 1) == snum && b / g.chunk % (g.disks - 1) == d && b % g.chunk == r
  {
    var cnum := snum * (g.disks - 1) + d;
    Quotient(cnum * g.chunk + r, g.chunk, cnum, r);
    Quotient(cnum, g.disks - 1, snum, d);
  }

  /** Block r of a stripe's chunk is at offset r of the stripe's rows, on every layout; at
      level 4 chunk d is on disk d. */
  lemma ChunkRows(g: Geometry, snum: int, d: int, r: int)
    requires GeometryOk(g) && snum >= 0 && 0 <= d < g.disks - 1 && 0 <= r < g.chunk
    ensures Bmap(g, BlockNumber(g, snum, d, r)).off == snum * g.chunk + r
    ensures g.layout == Raid4 ==> Bmap(g, BlockNumber(g, snum, d, r)).disk == d
  {
    hide BlockNumber;
    NumberParts(g, snum, d, r);
  }

  /** Left-asymmetric, the chunks of a stripe lie on ascending disks from the first on, only
      the parity disk being left out. */
  lemma AsymmetricDisks(g: Geometry, snum: int, d: int, r: int)
    requires GeometryOk(g) && g.layout == LeftAsymmetric && snum >= 0 && 0 <= d < g.disks - 1 && 0 <= r < g.chunk
    ensures d == 0 ==> Bmap(g, BlockNumber(g, snum, 0, r)).disk == if Pmap(g, snum) == 0 then 1 else 0
    ensures d > 0 ==>
      var before := Bmap(g, BlockNumber(g, snum, d - 1, r)).disk;
      Bmap(g, BlockNumber(g, snum, d, r)).disk == if before + 1 == Pmap(g, snum) then before + 2 else before + 1
  {
    hide BlockNumber, ParityDisk, Pmap;
    PmapIs(g, snum);
    ParityOnDisks(g, snum);
    NumberParts(g, snum, d, r);
    if d > 0 { NumberParts(g, snum, d - 1, r); }
  }

  /** Left-symmetric, the first chunk of a stripe is on the disk after its parity disk, and
      each further chunk one disk higher, both round and round. */
  lemma SymmetricDisks(g: Geometry, snum: int, d: int, r: int)
    requires GeometryOk(g) && g.layout == LeftSymmetric && snum >= 0 && 0 <= d < g.disks - 1 && 0 <= r < g.chunk
    ensures d == 0 ==> Bmap(g, BlockNumber(g, snum, 0, r)).disk == NextDisk(g, Pmap(g, snum))
    ensures d > 0 ==>
      Bmap(g, BlockNumber(g, snum, d, r)).disk == NextDisk(g, Bmap(g, BlockNumber(g, snum, d - 1, r)).disk)
  {
    hide BlockNumber, Pmap;
    var n, col := g.disks, snum % g.disks;
    PmapIs(g, snum);
    Divided(snum, n);
    NumberParts(g, snum, d, r);
    if d >= col { Quotient(d - col, n, 0, d - col); } else { Quotient(d - col, n, -1, d - col + n); }
    if d > 0 {
      NumberParts(g, snum, d - 1, r);
      var e := d - 1 - col;
      if e >= 0 { Quotient(e, n, 0, e); } else { Quotient(e, n, -1, e + n); }
    }
  }

  function NextDisk(g: Geometry, disk: int): int {
    if disk == g.disks - 1 then 0 else disk + 1
  }
}
