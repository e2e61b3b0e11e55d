/** The run-length compressor and its decompressor. */
module Zip {

  type byte = x: int | 0 <= x < 256

  const NEWLINE: byte := 10

  // ----- a C int as four bytes, least significant first

  function IntBytes(n: int): seq<byte>
    requires 0 <= n < 0x8000_0000
  {
    [n % 256, n / 256 % 256, n / 65536 % 256, n / 16777216]
  }

  function IntOf(a: byte, b: byte, c: byte, d: byte): int {
    var u := a + 256 * b + 65536 * c + 16777216 * d;
    if u < 0x8000_0000 then u else u - 0x1_0000_0000
  }

  lemma IntRoundTrip(n: int)
    requires 0 <= n < 0x8000_0000
    ensures var s := IntBytes(n);
      |s| == 4 && IntOf(s[0], s[1], s[2], s[3]) == n
  {
    var a, b, c := n / 256, n / 65536, n / 16777216;
    assert n == 256 * a + n % 256 && a / 256 == b && b / 256 == c;
    assert a == 256 * b + a % 256 && b == 256 * c + b % 256;
  }

  // ----- what the two programs write

  function Repeat(n: int, c: byte): seq<byte>
    decreases if n > 0 then n else 0
  {
    if n <= 0 then [] else Repeat(n - 1, c) + [c]
  }

  /** No run, of which `count` bytes have been read already, is too long for an int. */
  ghost predicate RunsFit(count: int, c: byte, rest: seq<byte>)
    decreases |rest|
  {
    && count < 0x8000_0000
    && (rest != [] ==> if rest[0] == c then RunsFit(count + 1, c, rest[1..]) else RunsFit(1, rest[0], rest[1..]))
  }

  ghost predicate Fits(input: seq<byte>) {
    input != [] ==> RunsFit(1, input[0], input[1..])
  }

  /** What is still to be written, `count` bytes of the current run having been read: a
      run is written when the next one begins, so the last one never is. */
  ghost function Pending(count: int, c: byte, rest: seq<byte>): seq<byte>
    requires count >= 0 && RunsFit(count, c, rest)
    decreases |rest|
  {
    if rest == [] then [NEWLINE]
    else if rest[0] == c then Pending(count + 1, c, rest[1..])
    else IntBytes(count) + [c] + Pending(1, rest[0], rest[1..])
  }

  ghost function Zipped(input: seq<byte>): seq<byte>
    requires Fits(input)
  {
    if input == [] then [NEWLINE] else Pending(1, input[0], input[1..])
  }

  /** The runs that can be read from a file; a byte that is missing after a count is left
      as it was. */
  ghost function Expanded(file: seq<byte>, c: byte): seq<byte> {
    if |file| < 4 then []
    else
      var n := IntOf(file[0], file[1], file[2], file[3]);
      if |file| == 4 then Repeat(n, c) else Repeat(n, file[4]) + Expanded(file[5..], file[4])
  }

  ghost function Unzipped(file: seq<byte>, c: byte): seq<byte> {
    Expanded(file, c) + [NEWLINE]
  }

  // ----- the runs of a file, by their positions

  /** The positions at which the byte changes, in order: where the second and later runs
      begin. */
  ghost function Changes(input: seq<byte>): seq<int> {
    if |input| < 2 then []
    else
      var last := |input| - 1;
      Changes(input[..last]) + if input[last] != input[last - 1] then [last] else []
  }

  lemma {:induction false} ChangesAre(input: seq<byte>)
    ensures forall i :: i in Changes(input) <==> IsChange(input, i)
    ensures forall j, k :: 0 <= j < k < |Changes(input)| ==> Changes(input)[j] < Changes(input)[k]
  {
    if |input| >= 2 {
      var last := |input| - 1;
      var rest := input[..last];
      ChangesAre(rest);
      forall i ensures IsChange(input, i) <==> IsChange(rest, i) || (i == last && input[last] != input[last - 1]) {
        assert 0 < i < last ==> rest[i] == input[i] && rest[i - 1] == input[i - 1];
      }
      forall k | 0 <= k < |Changes(rest)| ensures Changes(rest)[k] < last {
        assert Changes(rest)[k] in Changes(rest);
        assert IsChange(rest, Changes(rest)[k]);
      }
    }
  }

  ghost predicate IsChange(input: seq<byte>, i: int) {
    0 < i < |input| && input[i] != input[i - 1]
  }

  /** Where the run begins that ends at the k-th change. */
  function StartOf(ends: seq<int>, k: int): int
    requires 0 <= k <= |ends|
  {
    if k == 0 then 0 else ends[k - 1]
  }

  function LeastFirst(a: int, b: int, c: int, d: int): int {
    a + 256 * b + 65536 * c + 16777216 * d
  }

  /** Bytes 5k to 5k + 4 are the length of the k-th run, least significant byte first, and
      its byte. */
  ghost predicate PairAt(input: seq<byte>, ends: seq<int>, out: seq<byte>, k: int)
    requires 0 <= k < |ends|
  {
    && 5 * k + 5 <= |out| && 0 <= StartOf(ends, k) < |input|
    && LeastFirst(out[5 * k], out[5 * k + 1], out[5 * k + 2], out[5 * k + 3]) == ends[k] - StartOf(ends, k)
    && out[5 * k + 4] == input[StartOf(ends, k)]
  }

  ghost predicate PairsOk(input: seq<byte>, ends: seq<int>, out: seq<byte>) {
    forall k :: 0 <= k < |ends| ==> PairAt(input, ends, out, k)
  }

  /** A run of one byte is going on since `start`. */
  ghost predicate InRun(input: seq<byte>, start: int, i: int, c: byte) {
    0 <= start < i <= |input| && forall k :: start <= k < i ==> input[k] == c
  }

  lemma PairsGrow(input: seq<byte>, i: int, out: seq<byte>, c: byte)
    requires 0 < i < |input| && input[i] != c
    requires var ends := Changes(input[..i]);
      && |out| == 5 * |ends| && PairsOk(input, ends, out)
      && InRun(input, StartOf(ends, |ends|), i, c) && i - StartOf(ends, |ends|) < 0x8000_0000
    ensures var ends := Changes(input[..i + 1]);
      && var more := out + IntBytes(i - StartOf(Changes(input[..i]), |Changes(input[..i])|)) + [c];
      && ends == Changes(input[..i]) + [i] && |more| == 5 * |ends| && PairsOk(input, ends, more)
  {
    hide Changes, IntBytes;
    var before := Changes(input[..i]);
    NextChange(input, i);
    var n := i - StartOf(before, |before|);
    IntDigits(n);
    var ends, more := before + [i], out + IntBytes(n) + [c];
    forall k | 0 <= k < |ends| ensures PairAt(input, ends, more, k) {
      assert StartOf(ends, k) == StartOf(before, k);
      if k < |before| { assert PairAt(input, before, out, k); }
    }
  }

  lemma NextChange(input: seq<byte>, i: int)
    requires 0 <= i < |input|
    ensures Changes(input[..i + 1])
         == if i > 0 && input[i] != input[i - 1] then Changes(input[..i]) + [i] else Changes(input[..i])
  {
    assert input[..i + 1][..i] == input[..i];
  }

  lemma IntDigits(n: int)
    requires 0 <= n < 0x8000_0000
    ensures var s := IntBytes(n);
      |s| == 4 && LeastFirst(s[0], s[1], s[2], s[3]) == n
  {
    IntRoundTrip(n);
    var a, b, c := n / 256, n / 65536, n / 16777216;
    assert n == 256 * a + n % 256 && a / 256 == b && b / 256 == c;
    assert a == 256 * b + a % 256 && b == 256 * c + b % 256;
  }

  /** Each run but the last is written as its length and its byte. */
  method Zip(input: seq<byte>) returns (out: seq<byte>)
    requires Fits(input)
    ensures out == Zipped(input)
    ensures |out| == 5 * |Changes(input)| + 1 && out[5 * |Changes(input)|] == NEWLINE
    ensures PairsOk(input, Changes(input), out)
  {
    hide IntBytes, PairsOk, InRun, Changes, RunsFit, Pending, Zipped;
    out := [];
    var count := 1;
    var temp: byte := 0;
    var notFirstCycle := 0;
    NothingRead(input);
    for i := 0 to |input|
      invariant notFirstCycle == if i == 0 then 0 else 1
      invariant i == 0 ==> out == [] && count == 1
      invariant i > 0 ==> count >= 1 && RunsFit(count, temp, input[i..])
      invariant i > 0 ==> out + Pending(count, temp, input[i..]) == Zipped(input)
      invariant |out| == 5 * |Changes(input[..i])| && PairsOk(input, Changes(input[..i]), out)
      invariant i > 0 ==> count == i - StartOf(Changes(input[..i]), |Changes(input[..i])|)
      invariant i > 0 ==> InRun(input, i - count, i, temp)
    {
      var ch := input[i];
      assert input[i..] == [ch] + input[i + 1..];
      NextChange(input, i);
      RunGoesOn(input, i - count, i, temp);
      if i == 0 { FirstByte(input); } else { NextByte(count, temp, ch, input[i + 1..]); }
      if notFirstCycle == 0 {
        notFirstCycle := notFirstCycle + 1;
        temp := ch;
      } else if temp == ch {
        count := count + 1;
      } else {
        PairsGrow(input, i, out, temp);
        assert (out + IntBytes(count) + [temp]) + Pending(1, ch, input[i + 1..])
            == out + (IntBytes(count) + [temp] + Pending(1, ch, input[i + 1..]));
        out := out + IntBytes(count) + [temp];
        count := 1;
        temp := ch;
      }
    }
    NoMoreBytes(input, count, temp);
    assert input[..|input|] == input;
    PairsBefore(input, Changes(input), out);
    out := out + [NEWLINE];
  }

  lemma FirstByte(input: seq<byte>)
    requires input != [] && Fits(input)
    ensures RunsFit(1, input[0], input[1..]) && Zipped(input) == Pending(1, input[0], input[1..])
  {
  }

  lemma NextByte(count: int, c: byte, ch: byte, rest: seq<byte>)
    requires count >= 1 && RunsFit(count, c, [ch] + rest)
    ensures count < 0x8000_0000
    ensures ch == c ==> RunsFit(count + 1, c, rest) && Pending(count, c, [ch] + rest) == Pending(count + 1, c, rest)
    ensures ch != c ==>
      RunsFit(1, ch, rest) && Pending(count, c, [ch] + rest) == IntBytes(count) + [c] + Pending(1, ch, rest)
  {
    assert ([ch] + rest)[1..] == rest;
  }

  lemma NoMoreBytes(input: seq<byte>, count: int, c: byte)
    ensures input[|input|..] == []
    ensures count >= 0 && RunsFit(count, c, []) ==> Pending(count, c, []) == [NEWLINE]
    ensures Zipped([]) == [NEWLINE]
  {
  }

  lemma NothingRead(input: seq<byte>)
    ensures Changes(input[..0]) == [] && PairsOk(input, [], [])
  {
  }

  lemma RunGoesOn(input: seq<byte>, start: int, i: int, c: byte)
    requires 0 <= i < |input|
    ensures InRun(input, start, i, c) ==> (input[i] == c <==> input[i] == input[i - 1])
    ensures InRun(input, start, i, c) && input[i] == c ==> InRun(input, start, i + 1, c)
    ensures InRun(input, i, i + 1, input[i])
  {
  }

  lemma PairsBefore(input: seq<byte>, ends: seq<int>, out: seq<byte>)
    requires PairsOk(input, ends, out)
    ensures PairsOk(input, ends, out + [NEWLINE])
  {
    forall k | 0 <= k < |ends| ensures PairAt(input, ends, out + [NEWLINE], k) { assert PairAt(input, ends, out, k); }
  }

  /** `stale` is what the byte variable holds before the first read. */
  method Unzip(file: seq<byte>, stale: byte) returns (out: seq<byte>)
    ensures out == Unzipped(file, stale)
  {
    hide IntOf, Expanded;
    out := [];
    var pos := 0;
    var ch := stale;
    ExpandedShort(file, ch);
    while pos + 4 <= |file|
      invariant 0 <= pos <= |file|
      invariant out + Expanded(file[pos..], ch) == Expanded(file, stale)
    {
      ExpandedFrom(file, pos, ch);
      ghost var before := out;
      var count := IntOf(file[pos], file[pos + 1], file[pos + 2], file[pos + 3]);
      pos := pos + 4;
      if pos < |file| {
        ch := file[pos];
        pos := pos + 1;
      }
      for i := 0 to if count > 0 then count else 0
        invariant out == before + Repeat(i, ch)
      {
        out := out + [ch];
      }
      RepeatNone(count, ch);
      assert out == before + Repeat(count, ch);
      assert (before + Repeat(count, ch)) + Expanded(file[pos..], ch)
        == before + (Repeat(count, ch) + Expanded(file[pos..], ch));
    }
    ExpandedShort(file[pos..], ch);
    out := out + [NEWLINE];
  }

  lemma RepeatNone(n: int, c: byte)
    ensures n <= 0 ==> Repeat(n, c) == Repeat(0, c) == []
  {
  }

  lemma ExpandedShort(file: seq<byte>, c: byte)
    ensures |file| < 4 ==> Expanded(file, c) == []
    ensures file[0..] == file
  {
  }

  lemma ExpandedFrom(file: seq<byte>, pos: int, c: byte)
    requires 0 <= pos && pos + 4 <= |file|
    ensures var n, at := IntOf(file[pos], file[pos + 1], file[pos + 2], file[pos + 3]), pos + 4;
      var ch, next := if at < |file| then file[at] else c, if at < |file| then at + 1 else at;
      next <= |file| && Expanded(file[pos..], c) == Repeat(n, ch) + Expanded(file[next..], ch)
  {
    hide IntOf;
    var rest := file[pos..];
    assert rest[0] == file[pos] && rest[1] == file[pos + 1] && rest[2] == file[pos + 2] && rest[3] == file[pos + 3];
    if pos + 4 < |file| {
      assert rest[4] == file[pos + 4] && rest[5..] == file[pos + 5..];
    } else {
      assert file[pos + 4..] == [];
      ExpandedShort([], c);
    }
  }

  // ----- what any file expands to, by positions

  /** How many counts can be read, a byte missing after the last one or not. */
  function Counts(file: seq<byte>): nat {
    (|file| + 1) / 5
  }

  /** How long the k-th run is: a count with its highest bit set is negative, and gives none. */
  function RunLength(file: seq<byte>, k: nat): nat
    requires k < Counts(file)
  {
    var n := LeastFirst(file[5 * k], file[5 * k + 1], file[5 * k + 2], file[5 * k + 3]);
    if n < 0x8000_0000 then n else 0
  }

  function Offset(file: seq<byte>, k: nat): nat
    requires k <= Counts(file)
  {
    if k == 0 then 0 else Offset(file, k - 1) + RunLength(file, k - 1)
  }

  /** The byte of the k-th run: the one after its count, or the last one read. */
  function ByteOf(file: seq<byte>, k: nat, stale: byte): byte
    requires k < Counts(file)
  {
    if 5 * k + 4 < |file| then file[5 * k + 4] else if k == 0 then stale else file[5 * k - 1]
  }

  ghost predicate RunAt(file: seq<byte>, stale: byte, out: seq<byte>, k: nat)
    requires k < Counts(file)
  {
    && Offset(file, k) + RunLength(file, k) <= |out|
    && forall x :: Offset(file, k) <= x < Offset(file, k) + RunLength(file, k) ==> out[x] == ByteOf(file, k, stale)
  }

  /** Every file expands to its runs, one after the other, and nothing else. */
  lemma {:induction false} ExpandedAt(file: seq<byte>, stale: byte)
    ensures |Expanded(file, stale)| == Offset(file, Counts(file))
    ensures forall k: nat :: k < Counts(file) ==> RunAt(file, stale, Expanded(file, stale), k)
    decreases |file|
  {
    if |file| >= 4 {
      hide IntOf, LeastFirst, Expanded, RunAt, RunLength, Offset;
      var c := ByteOf(file, 0, stale);
      FirstRun(file, stale);
      if |file| > 4 {
        var rest := file[5..];
        ExpandedAt(rest, c);
        ShiftedOffsets(file, Counts(rest));
        forall k: nat | k < Counts(file) ensures RunAt(file, stale, Expanded(file, stale), k) {
          if k > 0 { LaterRun(file, stale, k - 1); }
        }
      }
    }
  }

  lemma FirstRun(file: seq<byte>, stale: byte)
    requires |file| >= 4
    ensures RunAt(file, stale, Expanded(file, stale), 0)
    ensures var n := IntOf(file[0], file[1], file[2], file[3]);
      && Expanded(file, stale) == Repeat(n, ByteOf(file, 0, stale))
                                  + (if |file| == 4 then [] else Expanded(file[5..], ByteOf(file, 0, stale)))
      && RunLength(file, 0) == |Repeat(n, ByteOf(file, 0, stale))| == Offset(file, 1)
  {
    hide IntOf, LeastFirst;
    IntTwosComplement(file[0], file[1], file[2], file[3]);
    var n := IntOf(file[0], file[1], file[2], file[3]);
    RepeatAt(n, ByteOf(file, 0, stale));
    assert Offset(file, 0) == 0;
    assert Offset(file, 1) == Offset(file, 0) + RunLength(file, 0);
  }

  lemma LaterRun(file: seq<byte>, stale: byte, k: nat)
    requires |file| > 4 && k < Counts(file[5..]) && k + 1 < Counts(file)
    requires RunAt(file[5..], file[4], Expanded(file[5..], file[4]), k)
    ensures RunAt(file, stale, Expanded(file, stale), k + 1)
  {
    hide IntOf, LeastFirst, Expanded, RunLength, Offset;
    FirstRun(file, stale);
    ShiftedOffsets(file, k);
    ShiftedRun(file, stale, k);
  }

  lemma {:induction false} ShiftedOffsets(file: seq<byte>, k: nat)
    requires |file| >= 5 && k <= Counts(file[5..])
    ensures Counts(file) == Counts(file[5..]) + 1
    ensures Offset(file, k + 1) == RunLength(file, 0) + Offset(file[5..], k)
  {
    if k == 0 {
      assert Offset(file, 1) == Offset(file, 0) + RunLength(file, 0);
    } else {
      ShiftedOffsets(file, k - 1);
      ShiftedRun(file, 0, k - 1);
    }
  }

  lemma ShiftedRun(file: seq<byte>, stale: byte, k: nat)
    requires |file| >= 5 && k < Counts(file[5..])
    ensures k + 1 < Counts(file) && RunLength(file, k + 1) == RunLength(file[5..], k)
    ensures ByteOf(file, k + 1, stale) == ByteOf(file[5..], k, file[4])
  {
  }

  /** A C int is its four bytes in two's complement. */
  lemma IntTwosComplement(a: byte, b: byte, c: byte, d: byte)
    ensures -0x8000_0000 <= IntOf(a, b, c, d) < 0x8000_0000 && 0 <= LeastFirst(a, b, c, d) < 0x1_0000_0000
    ensures IntOf(a, b, c, d) == LeastFirst(a, b, c, d) || IntOf(a, b, c, d) == LeastFirst(a, b, c, d) - 0x1_0000_0000
  {
  }

  // ----- one after the other

  function DropRun(s: seq<byte>, c: byte): seq<byte>
    decreases |s|
  {
    if s != [] && s[|s| - 1] == c then DropRun(s[..|s| - 1], c) else s
  }

  function WithoutLastRun(s: seq<byte>): seq<byte> {
    if s == [] then s else DropRun(s, s[|s| - 1])
  }

  lemma {:induction false} DropRepeat(n: int, c: byte)
    ensures DropRun(Repeat(n, c), c) == []
    decreases if n > 0 then n else 0
  {
    if n > 0 {
      DropRepeat(n - 1, c);
      assert Repeat(n, c)[..|Repeat(n, c)| - 1] == Repeat(n - 1, c);
    }
  }

  lemma {:induction false} DropRunAfter(a: seq<byte>, b: seq<byte>, c: byte)
    requires b != [] && (a != [] ==> a[|a| - 1] != b[0])
    ensures DropRun(a + b, c) == a + DropRun(b, c)
    decreases |b|
  {
    var last := |b| - 1;
    if b[last] == c {
      assert (a + b)[..|a + b| - 1] == a + b[..last];
      if last > 0 { DropRunAfter(a, b[..last], c); } else { assert a + b[..last] == a && DropRun(a, c) == a; }
    }
  }

  lemma {:induction false} RepeatAt(n: int, c: byte)
    ensures |Repeat(n, c)| == (if n > 0 then n else 0) && forall k :: 0 <= k < |Repeat(n, c)| ==> Repeat(n, c)[k] == c
    decreases if n > 0 then n else 0
  {
    if n > 0 { RepeatAt(n - 1, c); }
  }

  /** Reading the pairs back gives the runs that were written. */
  lemma {:induction false} ExpandPending(count: int, c: byte, rest: seq<byte>, stale: byte)
    requires count >= 1 && RunsFit(count, c, rest)
    ensures Expanded(Pending(count, c, rest), stale) == WithoutLastRun(Repeat(count, c) + rest)
    decreases |rest|
  {
    hide IntBytes, IntOf, Expanded, DropRun;
    var run := Repeat(count, c);
    RepeatAt(count, c);
    if rest == [] {
      DropRepeat(count, c);
      assert run + rest == run;
      ExpandedShort([NEWLINE], stale);
    } else if rest[0] == c {
      ExpandPending(count + 1, c, rest[1..], stale);
      assert run + rest == Repeat(count + 1, c) + rest[1..];
    } else {
      var tail := Pending(1, rest[0], rest[1..]);
      ExpandPending(1, rest[0], rest[1..], c);
      assert Repeat(1, rest[0]) == Repeat(0, rest[0]) + [rest[0]] == [rest[0]];
      assert Repeat(1, rest[0]) + rest[1..] == rest;
      ReadPair(count, c, tail, stale);
      DropRunAfter(run, rest, rest[|rest| - 1]);
      assert (run + rest)[|run + rest| - 1] == rest[|rest| - 1];
    }
  }

  lemma ReadPair(count: int, c: byte, tail: seq<byte>, stale: byte)
    requires 0 <= count < 0x8000_0000
    ensures Expanded(IntBytes(count) + [c] + tail, stale) == Repeat(count, c) + Expanded(tail, c)
  {
    var s := IntBytes(count);
    IntRoundTrip(count);
    hide IntBytes, IntOf;
    var file := s + [c] + tail;
    assert file[0] == s[0] && file[1] == s[1] && file[2] == s[2] && file[3] == s[3] && file[4] == c
      && file[5..] == tail;
  }

  /** Unzipping a zipped file gives the file without its last run, and a newline. */
  lemma UnzipOfZip(input: seq<byte>, stale: byte)
    requires Fits(input)
    ensures Unzipped(Zipped(input), stale) == WithoutLastRun(input) + [NEWLINE]
  {
    if input != [] {
      ExpandPending(1, input[0], input[1..], stale);
      assert Repeat(1, input[0]) == Repeat(0, input[0]) + [input[0]] == [input[0]];
      assert Repeat(1, input[0]) + input[1..] == input;
    }
  }

  /** The file ends in exactly one newline. */
  predicate EndsInOneNewline(s: seq<byte>) {
    s != [] && s[|s| - 1] == NEWLINE && (|s| >= 2 ==> s[|s| - 2] != NEWLINE)
  }

  /** So exactly the files that end in one newline come back as they were. */
  lemma ReproducedExactly(input: seq<byte>, stale: byte)
    requires Fits(input)
    ensures Unzipped(Zipped(input), stale) == input <==> EndsInOneNewline(input)
  {
    UnzipOfZip(input, stale);
    if input != [] {
      var last := |input| - 1;
      var c := input[last];
      DroppedAtLeast(input[..last], c);
      if EndsInOneNewline(input) {
        assert WithoutLastRun(input) == input[..last];
        assert input[..last] + [NEWLINE] == input;
      } else if c == NEWLINE {
        assert input[..last] != [] && input[..last][last - 1] == c;
        DroppedAtLeast(input[..last][..last - 1], c);
        assert |WithoutLastRun(input)| < last;
      } else {
        assert (WithoutLastRun(input) + [NEWLINE])[|WithoutLastRun(input)|] != c;
      }
    }
  }

  lemma {:induction false} DroppedAtLeast(s: seq<byte>, c: byte)
    ensures |DropRun(s, c)| <= |s|
    decreases |s|
  {
    if s != [] && s[|s| - 1] == c { DroppedAtLeast(s[..|s| - 1], c); }
  }
}
