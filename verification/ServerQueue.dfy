/** The web server's request queue: a linked list, and its shortest-file-first sort, which
    uses nothing but taking from the front and putting at the rear. */
module ServerQueue {
  import opened Sequences

  /** A C int. */
  type int32 = x: int | -0x8000_0000 <= x < 0x8000_0000

  /** A client connection; `request` stands for its strings. */
  datatype Connection = Connection(fd: int, filesize: int32, valid: int, request: string)

  // ----- what the sort does to the queue's contents

  function Mark(c: Connection): Connection {
    c.(valid := 1)
  }

  function Marked(q: seq<Connection>): seq<Connection> {
    seq(|q|, i requires 0 <= i < |q| => Mark(q[i]))
  }

  /** `m` is the last of the smallest of the first `count`. */
  ghost predicate IsLastMin(q: seq<Connection>, m: int, count: int) {
    && 0 <= m < count <= |q|
    && (forall k :: 0 <= k < count ==> q[m].filesize <= q[k].filesize)
    && (forall k :: m < k < count ==> q[m].filesize < q[k].filesize)
  }

  function LastMin(q: seq<Connection>, count: int): (m: int)
    requires 1 <= count <= |q|
    ensures IsLastMin(q, m, count)
  {
    if count == 1 then 0
    else
      var m := LastMin(q, count - 1);
      if q[count - 1].filesize <= q[m].filesize then count - 1 else m
  }

  /** The last smallest of the first `count` goes to the rear. */
  function Round(q: seq<Connection>, count: int): seq<Connection>
    requires 1 <= count <= |q|
  {
    var m := LastMin(q, count);
    Without(q, m) + [Mark(q[m])]
  }

  function Rounds(q: seq<Connection>, k: int): (r: seq<Connection>)
    requires 0 <= k <= |q|
    ensures |r| == |q|
  {
    if k == 0 then q else Round(Rounds(q, k - 1), |q| - k + 1)
  }

  function SortedQueue(q: seq<Connection>): seq<Connection> {
    Rounds(q, |q|)
  }

  ghost predicate Ascending(q: seq<Connection>) {
    forall i, j :: 0 <= i < j < |q| ==> q[i].filesize <= q[j].filesize
  }

  /** After k rounds the last k are in order, marked, and no larger than the others. */
  ghost predicate RearSorted(q: seq<Connection>, k: int) {
    && 0 <= k <= |q|
    && (forall i, j :: |q| - k <= i < j < |q| ==> q[i].filesize <= q[j].filesize)
    && (forall i, j :: 0 <= i < |q| - k <= j < |q| ==> q[j].filesize <= q[i].filesize)
    && (forall j :: |q| - k <= j < |q| ==> q[j] == Mark(q[j]))
  }

  lemma RoundAt(q: seq<Connection>, count: int)
    requires 1 <= count <= |q|
    ensures var m, r := LastMin(q, count), Round(q, count);
      && |r| == |q| && r[|q| - 1] == Mark(q[m])
      && (forall j :: 0 <= j < m ==> r[j] == q[j]) && (forall j :: m <= j < |q| - 1 ==> r[j] == q[j + 1])
  {
    hide LastMin, Without;
    WithoutAt(q, LastMin(q, count));
  }

  lemma RoundSorts(q: seq<Connection>, k: int)
    requires k < |q| && RearSorted(q, k)
    ensures RearSorted(Round(q, |q| - k), k + 1)
  {
    hide Round, LastMin;
    RoundAt(q, |q| - k);
  }

  lemma MarkedKeeps(q: seq<Connection>, m: int)
    requires 0 <= m < |q|
    ensures multiset(Marked(Without(q, m) + [Mark(q[m])])) == multiset(Marked(q))
  {
    var a, b := Marked(q[..m]), Marked(q[m + 1..]);
    assert Marked(q) == a + ([Mark(q[m])] + b);
    assert Marked(Without(q, m) + [Mark(q[m])]) == (a + b) + [Mark(q[m])];
  }

  lemma RoundKeeps(q: seq<Connection>, count: int)
    requires 1 <= count <= |q|
    ensures multiset(Marked(Round(q, count))) == multiset(Marked(q))
  {
    hide Marked;
    MarkedKeeps(q, LastMin(q, count));
  }

  lemma {:induction false} RoundsSort(q: seq<Connection>, k: int)
    requires 0 <= k <= |q|
    ensures RearSorted(Rounds(q, k), k)
    ensures multiset(Marked(Rounds(q, k))) == multiset(Marked(q))
  {
    hide RearSorted, Marked, Round, LastMin;
    if k > 0 {
      RoundsSort(q, k - 1);
      var r := Rounds(q, k - 1);
      RoundSorts(r, k - 1);
      RoundKeeps(r, |q| - k + 1);
    } else {
      NoneSorted(q);
    }
  }

  lemma NoneSorted(q: seq<Connection>)
    ensures RearSorted(q, 0)
  {
  }

  /** The sort puts the queue in ascending order of file size and loses, doubles or
      changes no request, but for the valid flag that it sets. */
  lemma SortedQueueSorts(q: seq<Connection>)
    ensures var r := SortedQueue(q);
      && |r| == |q| && Ascending(r) && r == Marked(r) && multiset(r) == multiset(Marked(q))
  {
    RoundsSort(q, |q|);
    var r := SortedQueue(q);
    assert r == Marked(r);
  }

  // ----- what the sort does to requests of one size

  /** The requests for files of size n, in their order. */
  function OfSize(q: seq<Connection>, n: int): seq<Connection> {
    if q == [] then [] else OfSize(q[..|q| - 1], n) + if q[|q| - 1].filesize == n then [q[|q| - 1]] else []
  }

  function Reverse(q: seq<Connection>): seq<Connection> {
    if q == [] then [] else Reverse(q[1..]) + [q[0]]
  }

  lemma {:induction false} OfSizeJoin(a: seq<Connection>, b: seq<Connection>, n: int)
    ensures OfSize(a + b, n) == OfSize(a, n) + OfSize(b, n)
    decreases |b|
  {
    if b == [] {
      assert a + b == a;
    } else {
      var last := |b| - 1;
      assert (a + b)[..|a + b| - 1] == a + b[..last];
      OfSizeJoin(a, b[..last], n);
    }
  }

  lemma OfSizeOne(c: Connection, n: int)
    ensures OfSize([c], n) == if c.filesize == n then [c] else []
  {
    assert [c][..0] == [];
  }

  lemma {:induction false} NoneOfSize(q: seq<Connection>, n: int)
    requires forall k :: 0 <= k < |q| ==> q[k].filesize != n
    ensures OfSize(q, n) == []
  {
    if q != [] { NoneOfSize(q[..|q| - 1], n); }
  }

  /** Taking the last smallest of the first `count` takes the last of its size there, and
      none of another size. */
  lemma OfSizeWithout(q: seq<Connection>, count: int, n: int)
    requires 1 <= count <= |q|
    ensures var m, front := LastMin(q, count), q[..count];
      OfSize(front, n) == OfSize(Without(front, m), n) + if q[m].filesize == n then [q[m]] else []
  {
    hide LastMin, OfSize;
    var m, front := LastMin(q, count), q[..count];
    var a, b := front[..m], front[m + 1..];
    assert front == a + ([front[m]] + b) && Without(front, m) == a + b;
    OfSizeJoin(a, [front[m]] + b, n);
    OfSizeJoin([front[m]], b, n);
    OfSizeJoin(a, b, n);
    OfSizeOne(front[m], n);
    if q[m].filesize == n {
      forall k | 0 <= k < |b| ensures b[k].filesize != n { assert b[k] == q[m + 1 + k]; }
      NoneOfSize(b, n);
    }
  }

  /** After k rounds the front holds the first requests of size n, in their order, and the
      rear the others, the other way round. */
  ghost predicate Turning(q: seq<Connection>, r: seq<Connection>, k: int, n: int)
    requires 0 <= k <= |q| == |r|
  {
    var front, all := OfSize(r[..|q| - k], n), OfSize(q, n);
    front <= all && OfSize(r[|q| - k..], n) == Reverse(Marked(all[|front|..]))
  }

  lemma ReverseMore(c: Connection, rest: seq<Connection>)
    ensures Reverse(Marked([c] + rest)) == Reverse(Marked(rest)) + [Mark(c)]
  {
    assert Marked([c] + rest)[1..] == Marked(rest);
  }

  lemma RoundParts(r: seq<Connection>, count: int)
    requires 1 <= count <= |r|
    ensures var m, r' := LastMin(r, count), Round(r, count);
      && |r'| == |r| && 0 <= m < count
      && r'[..count - 1] == Without(r[..count], m) && r'[count - 1..] == r[count..] + [Mark(r[m])]
  {
    hide LastMin, Without, Round;
    RoundAt(r, count);
    WithoutAt(r[..count], LastMin(r, count));
  }

  lemma RoundTurns(q: seq<Connection>, r: seq<Connection>, k: int, n: int)
    requires 0 <= k < |q| == |r| && Turning(q, r, k, n)
    ensures |Round(r, |q| - k)| == |q| && Turning(q, Round(r, |q| - k), k + 1, n)
  {
    hide OfSize, LastMin, Reverse, Marked, Without, Round;
    var count := |q| - k;
    var m, r' := LastMin(r, count), Round(r, count);
    RoundParts(r, count);
    OfSizeWithout(r, count, n);
    OfSizeJoin(r[count..], [Mark(r[m])], n);
    OfSizeOne(Mark(r[m]), n);
    OneTurned(OfSize(q, n), OfSize(r'[..count - 1], n), OfSize(r[..count], n), r[m], OfSize(r[count..], n),
              r[m].filesize == n);
  }

  lemma OneTurned(all: seq<Connection>, front': seq<Connection>, front: seq<Connection>, c: Connection,
                  rear: seq<Connection>, more: bool)
    requires front <= all && front == front' + (if more then [c] else []) && rear == Reverse(Marked(all[|front|..]))
    ensures front' <= all
    ensures rear + (if more then [Mark(c)] else []) == Reverse(Marked(all[|front'|..]))
  {
    hide Reverse, Marked;
    if more {
      assert all[|front'|] == front[|front'|] == c;
      assert all[|front'|..] == [c] + all[|front|..];
      ReverseMore(c, all[|front|..]);
    } else {
      assert front == front';
    }
  }

  lemma {:induction false} RoundsTurn(q: seq<Connection>, k: int, n: int)
    requires 0 <= k <= |q|
    ensures Turning(q, Rounds(q, k), k, n)
  {
    hide Turning, Round;
    if k == 0 { NothingTurned(q, n); } else {
      RoundsTurn(q, k - 1, n);
      RoundTurns(q, Rounds(q, k - 1), k - 1, n);
    }
  }

  lemma NothingTurned(q: seq<Connection>, n: int)
    ensures Turning(q, q, 0, n)
  {
    assert q[..|q|] == q && q[|q|..] == [];
  }

  /** The sort turns the requests of every size round. */
  lemma EqualSizesReversed(q: seq<Connection>, n: int)
    ensures OfSize(SortedQueue(q), n) == Reverse(Marked(OfSize(q, n)))
  {
    hide OfSize, Reverse, Marked, Rounds;
    RoundsTurn(q, |q|, n);
    var r := SortedQueue(q);
    assert r[..0] == [] && r[0..] == r;
    NoneOfSize([], n);
    assert OfSize(q, n)[0..] == OfSize(q, n);
  }

  lemma {:induction false} ReverseAt(q: seq<Connection>, k: int)
    requires 0 <= k < |q|
    ensures |Reverse(q)| == |q| && Reverse(q)[k] == q[|q| - 1 - k]
  {
    if |q| > 1 {
      ReverseAt(q[1..], if k < |q| - 1 then k else 0);
    } else {
      assert q[1..] == [];
    }
  }

  /** Requests that differ in more than their valid flag. */
  ghost predicate AllDifferent(q: seq<Connection>) {
    forall i, j :: 0 <= i < j < |q| ==> Mark(q[i]) != Mark(q[j])
  }

  ghost predicate NoSizeTwice(q: seq<Connection>) {
    forall i, j :: 0 <= i < j < |q| ==> q[i].filesize != q[j].filesize
  }

  /** Among requests of one size the order of arrival survives the sort. */
  ghost predicate OrderSurvives(q: seq<Connection>) {
    forall n :: OfSize(SortedQueue(q), n) == Marked(OfSize(q, n))
  }

  lemma {:induction false} OfSizeMember(q: seq<Connection>, n: int)
    ensures forall c :: c in OfSize(q, n) <==> c in q && c.filesize == n
  {
    if q != [] {
      OfSizeMember(q[..|q| - 1], n);
      assert q == q[..|q| - 1] + [q[|q| - 1]];
    }
  }

  lemma {:induction false} OfSizeDifferent(q: seq<Connection>, n: int)
    requires AllDifferent(q)
    ensures AllDifferent(OfSize(q, n))
  {
    if q != [] {
      var last := |q| - 1;
      OfSizeDifferent(q[..last], n);
      OfSizeMember(q[..last], n);
      forall k | 0 <= k < |OfSize(q[..last], n)|
        ensures Mark(OfSize(q[..last], n)[k]) != Mark(q[last])
      {
        var c := OfSize(q[..last], n)[k];
        assert c in OfSize(q[..last], n);
        var x :| 0 <= x < last && q[..last][x] == c;
        assert q[x] == c;
      }
    }
  }

  lemma {:induction false} AtMostOne(q: seq<Connection>, n: int)
    requires NoSizeTwice(q)
    ensures |OfSize(q, n)| <= 1
  {
    if q != [] {
      var last := |q| - 1;
      if q[last].filesize == n { NoneOfSize(q[..last], n); } else { AtMostOne(q[..last], n); }
    }
  }

  /** Of requests that differ, it survives if and only if no two are of one size. */
  lemma SortIsStableOnlyWithoutTies(q: seq<Connection>)
    requires AllDifferent(q)
    ensures OrderSurvives(q) <==> NoSizeTwice(q)
  {
    hide OfSize, Reverse, SortedQueue;
    forall n ensures OfSize(SortedQueue(q), n) == Reverse(Marked(OfSize(q, n))) { EqualSizesReversed(q, n); }
    if NoSizeTwice(q) {
      forall n ensures OfSize(SortedQueue(q), n) == Marked(OfSize(q, n)) {
        AtMostOne(q, n);
        ShortReverse(Marked(OfSize(q, n)));
      }
    } else {
      var i, j :| 0 <= i < j < |q| && q[i].filesize == q[j].filesize;
      var all := OfSize(q, q[i].filesize);
      OfSizeMember(q, q[i].filesize);
      OfSizeDifferent(q, q[i].filesize);
      assert q[i] in all && q[j] in all && q[i] != q[j];
      assert |all| >= 2;
      ReverseAt(Marked(all), 0);
      assert Marked(all)[0] != Marked(all)[|all| - 1];
    }
  }

  lemma ShortReverse(q: seq<Connection>)
    requires |q| <= 1
    ensures Reverse(q) == q
  {
    if |q| == 1 { ReverseAt(q, 0); }
  }

  // ----- the linked queue

  class Node {
    const info: Connection
    var prev: Node?

    constructor (info: Connection)
      ensures this.info == info && prev == null
    {
      this.info := info;
      prev := null;
    }
  }

  class Queue {
    var head: Node?
    var tail: Node?
    var size: int
    var limit: int
    ghost var nodes: seq<Node>
    ghost var repr: set<Node>

    ghost predicate Valid()
      reads this, nodes
    {
      && |nodes| == size <= limit && InRepr(nodes, repr)
      && (size > 0 ==> head == nodes[0] && tail == nodes[size - 1])
      && Linked(nodes)
    }

    /** The requests, first to last. */
    ghost function Contents(): seq<Connection>
      reads this
    {
      Infos(nodes)
    }

    constructor (limit: int)
      ensures Valid() && Contents() == [] && repr == {} && this.limit == if limit <= 0 then 65535 else limit
    {
      this.limit := if limit <= 0 then 65535 else limit;
      size, head, tail := 0, null, null;
      nodes, repr := [], {};
    }

    method IsEmpty() returns (r: bool)
      requires Valid()
      ensures r <==> Contents() == []
    {
      r := size == 0;
    }

    method IsFull() returns (r: bool)
      requires Valid()
      ensures r <==> |Contents()| == limit
    {
      r := size == limit;
    }

    /** Put a request at the rear, unless the queue is full. */
    method InsertConnection(item: Node) returns (ok: bool)
      requires Valid() && item !in nodes
      modifies this`head, this`tail, this`size, this`nodes, this`repr, repr, item
      ensures Valid() && ok == (old(size) < limit)
      ensures ok ==> nodes == old(nodes) + [item]
      ensures !ok ==> nodes == old(nodes)
      ensures repr == old(repr) + if ok then {item} else {}
    {
      if size >= limit { return false; }
      item.prev := null;
      if size == 0 {
        head := item;
        tail := item;
      } else {
        tail.prev := item;
        tail := item;
      }
      size := size + 1;
      nodes := nodes + [item];
      repr := repr + {item};
      return true;
    }

    /** Take the request at the front, if there is one. */
    method Pop() returns (item: Node?)
      requires Valid()
      modifies this`head, this`size, this`nodes
      ensures Valid()
      ensures old(size) == 0 ==> item == null && nodes == old(nodes)
      ensures old(size) > 0 ==> item == old(nodes)[0] && nodes == old(nodes)[1..] && item !in nodes
      ensures old(size) > 0 ==> item.info == old(Contents())[0] && Contents() == old(Contents())[1..]
    {
      hide Linked, Infos;
      if size == 0 { return null; }
      LinkedDrop(nodes);
      InfosDrop(nodes);
      item := head;
      head := head.prev;
      size := size - 1;
      nodes := nodes[1..];
    }

    /** Where the last smallest of the first `sortedIndex + 1` requests is, found by taking
        out and putting back the whole queue once, which leaves it as it was. */
    method MinIndex(sortedIndex: int) returns (index: int)
      requires Valid() && sortedIndex < size
      modifies this`head, this`tail, this`size, this`nodes, this`repr, repr
      ensures Valid() && nodes == old(nodes) && repr == old(repr) && Contents() == old(Contents())
      ensures index == if sortedIndex < 0 then -1 else LastMin(old(Contents()), sortedIndex + 1)
    {
      hide InRepr, Linked, Turned, LastMin, Infos;
      if sortedIndex < 0 { return -1; }
      index := -1;
      var minVal := 2147483647;
      var n := size;
      ghost var all, was := nodes, Contents();
      InfosAt(all);
      TurnedNone(all);
      for i := 0 to n
        invariant Valid() && nodes == Turned(all, i) && repr == old(repr)
        invariant index < i && -1 <= index
        invariant index >= 0 ==> minVal == was[index].filesize
        invariant if i == 0 then index == -1 && minVal == 2147483647
                  else index == LastMin(was, if i <= sortedIndex then i else sortedIndex + 1)
      {
        TurnedStep(all, i);
        InReprAt(nodes, repr, all[i]);
        LastMinStep(was, i);
        var current := Pop();
        if current.info.filesize <= minVal && i <= sortedIndex {
          index := i;
          minVal := current.info.filesize;
        }
        var _ := InsertConnection(current);
      }
    }

    /** The request at `minIndex` goes to the rear, as a marked copy, the others keeping
        their order. */
    method InsertMinToRear(minIndex: int)
      requires Valid() && minIndex < size
      modifies this`head, this`tail, this`size, this`nodes, this`repr, repr
      ensures Valid() && fresh(repr - old(repr))
      ensures Contents() == if minIndex < 0 then old(Contents())
                            else Without(old(Contents()), minIndex) + [Mark(old(Contents())[minIndex])]
    {
      hide InRepr, Linked, Without, Infos, Others;
      if minIndex < 0 { return; }
      var n := size;
      ghost var all := nodes;
      var last: Node? := null;
      InfosAt(all);
      OthersNone(all, minIndex);
      for i := 0 to n
        invariant Valid() && nodes == Others(all, i, minIndex) && repr == old(repr)
        invariant i <= minIndex ==> last == null
        invariant i > minIndex ==> last != null && fresh(last) && last.info == Mark(all[minIndex].info)
      {
        OthersStep(all, i, minIndex);
        InReprAt(nodes, repr, all[i]);
        var current := Pop();
        if i != minIndex {
          var _ := InsertConnection(current);
        } else {
          last := new Node(current.info.(valid := 1));
        }
      }
      OthersAll(all, minIndex);
      var _ := InsertConnection(last);
      InfosOfOthers(all, minIndex, last);
    }

    /** Sort by file size. */
    method SortQueue()
      requires Valid()
      modifies this`head, this`tail, this`size, this`nodes, this`repr, repr
      ensures Valid() && Contents() == SortedQueue(old(Contents()))
      ensures fresh(repr - old(repr))
    {
      hide Valid, LastMin, IsLastMin, Rounds, Round, Without;
      ghost var was := Contents();
      ValidSize();
      var n := size;
      RoundsStep(was, 0);
      for i := 1 to n + 1
        invariant Valid() && Contents() == Rounds(was, i - 1)
        invariant fresh(repr - old(repr))
      {
        RoundsStep(was, i);
        RoundIs(Contents(), n - i + 1);
        ValidSize();
        var minIndex := MinIndex(n - i);
        ValidSize();
        InsertMinToRear(minIndex);
      }
    }

    lemma ValidSize()
      requires Valid()
      ensures |Contents()| == size
    {
    }

    /** First in, first out. */
    method Fifo(connection: Connection)
      requires Valid()
      modifies this`head, this`tail, this`size, this`nodes, this`repr, repr
      ensures Valid() && Contents() == FifoInsert(old(Contents()), connection, limit)
      ensures fresh(repr - old(repr))
    {
      hide InRepr, Linked, Infos, SortedQueue;
      InfosAt(nodes);
      InfosMore(nodes);
      var node := new Node(connection);
      var _ := InsertConnection(node);
      InfosAt(nodes);
    }

    /** Smallest file first. */
    method Sff(connection: Connection)
      requires Valid()
      modifies this`head, this`tail, this`size, this`nodes, this`repr, repr
      ensures Valid() && Contents() == SffInsert(old(Contents()), connection, limit)
      ensures fresh(repr - old(repr))
    {
      hide InRepr, Linked, Infos, SortedQueue;
      InfosAt(nodes);
      InfosMore(nodes);
      var node := new Node(connection);
      var _ := InsertConnection(node);
      InfosAt(nodes);
      ghost var r := FifoInsert(old(Contents()), connection, limit);
      assert Contents() == r;
      if size > 1 { SortQueue(); }
      SffInsertIs(old(Contents()), connection, limit);
    }
  }

  lemma LinkedDrop(nodes: seq<Node>)
    requires nodes != [] && Linked(nodes)
    ensures Linked(nodes[1..]) && nodes[0] !in nodes[1..] && nodes[0].prev == if |nodes| > 1 then nodes[1] else null
  {
  }

  ghost predicate InRepr(nodes: seq<Node>, repr: set<Node>) {
    forall x :: x in nodes ==> x in repr
  }

  lemma InReprAt(nodes: seq<Node>, repr: set<Node>, x: Node)
    requires InRepr(nodes, repr) && nodes != [] && nodes[0] == x
    ensures x in repr && repr + {x} == repr
  {
  }

  ghost predicate Linked(nodes: seq<Node>)
    reads nodes
  {
    && (forall i, j :: 0 <= i < j < |nodes| ==> nodes[i] != nodes[j])
    && (forall i {:trigger nodes[i].prev} :: 0 <= i < |nodes| - 1 ==> nodes[i].prev == nodes[i + 1])
    && (nodes != [] ==> nodes[|nodes| - 1].prev == null)
  }

  ghost function Infos(nodes: seq<Node>): seq<Connection> {
    seq(|nodes|, i requires 0 <= i < |nodes| => nodes[i].info)
  }

  /** The first i at the rear. */
  ghost function Turned<T>(s: seq<T>, i: int): seq<T>
    requires 0 <= i <= |s|
  {
    s[i..] + s[..i]
  }

  lemma TurnedNone<T>(s: seq<T>)
    ensures Turned(s, |s|) == s && Turned(s, 0) == s
  {
  }

  lemma TurnedStep<T>(s: seq<T>, i: int)
    requires 0 <= i < |s|
    ensures |Turned(s, i)| == |s| && Turned(s, i)[0] == s[i] && Turned(s, i)[1..] + [s[i]] == Turned(s, i + 1)
    ensures forall x :: x in Turned(s, i)[1..] ==> x in s
    ensures s[i] in s
  {
  }

  /** What is left of s, without index m, when the first i have been put at the rear. */
  ghost function Others<T>(s: seq<T>, i: int, m: int): seq<T>
    requires 0 <= i <= |s| && m >= 0
  {
    s[i..] + Without(s[..i], m)
  }

  lemma OthersNone<T>(s: seq<T>, m: int)
    requires m >= 0
    ensures Others(s, 0, m) == s
  {
  }

  lemma OthersStep<T>(s: seq<T>, i: int, m: int)
    requires 0 <= i < |s| && m >= 0
    ensures Others(s, i, m) != [] && Others(s, i, m)[0] == s[i]
    ensures |Others(s, i, m)| == |s| - if i > m then 1 else 0
    ensures Others(s, i + 1, m) == Others(s, i, m)[1..] + if i == m then [] else [s[i]]
    ensures forall x :: x in Others(s, i, m)[1..] ==> x in s
    ensures s[i] in s
  {
    hide Without;
    var a := s[..i];
    assert s[..i + 1] == a + [s[i]] && s[i..] == [s[i]] + s[i + 1..];
    WithoutMore(a, s[i], m);
    assert Others(s, i, m)[1..] == s[i + 1..] + Without(a, m);
    assert (s[i + 1..] + Without(a, m)) + [s[i]] == s[i + 1..] + (Without(a, m) + [s[i]]);
  }

  lemma WithoutMore<T>(a: seq<T>, x: T, m: int)
    requires m >= 0
    ensures Without(a + [x], m) == Without(a, m) + if |a| == m then [] else [x]
    ensures |Without(a, m)| == |a| - if |a| > m then 1 else 0
    ensures forall y :: y in Without(a, m) ==> y in a
  {
  }

  lemma OthersAll<T>(s: seq<T>, m: int)
    requires 0 <= m < |s|
    ensures Others(s, |s|, m) == Without(s, m) && |Without(s, m)| == |s| - 1
    ensures forall x :: x in Without(s, m) ==> x in s
  {
    assert s[..|s|] == s;
  }

  lemma InfosAt(nodes: seq<Node>)
    ensures |Infos(nodes)| == |nodes| && forall i :: 0 <= i < |nodes| ==> Infos(nodes)[i] == nodes[i].info
  {
  }

  lemma InfosDrop(nodes: seq<Node>)
    requires nodes != []
    ensures |Infos(nodes)| == |nodes| && Infos(nodes)[0] == nodes[0].info && Infos(nodes[1..]) == Infos(nodes)[1..]
  {
  }

  lemma InfosMore(nodes: seq<Node>)
    ensures forall n: Node :: Infos(nodes + [n]) == Infos(nodes) + [n.info]
  {
  }

  lemma InfosOfOthers(nodes: seq<Node>, m: int, last: Node)
    requires 0 <= m < |nodes|
    ensures Infos(Without(nodes, m) + [last]) == Without(Infos(nodes), m) + [last.info]
  {
    var a, b := Infos(Without(nodes, m) + [last]), Without(Infos(nodes), m) + [last.info];
    hide Infos, Without;
    InfosAt(nodes);
    InfosAt(Without(nodes, m) + [last]);
    WithoutAt(nodes, m);
    WithoutAt(Infos(nodes), m);
    assert a == b;
  }

  lemma LastMinStep(q: seq<Connection>, i: int)
    requires 0 <= i < |q|
    ensures LastMin(q, i + 1) == (if i == 0 || q[i].filesize <= q[LastMin(q, i)].filesize then i else LastMin(q, i))
    ensures i > 0 ==> 0 <= LastMin(q, i) < i
  {
  }

  lemma RoundIs(q: seq<Connection>, count: int)
    requires 1 <= count <= |q|
    ensures 0 <= LastMin(q, count) < |q|
    ensures Round(q, count) == Without(q, LastMin(q, count)) + [Mark(q[LastMin(q, count)])]
  {
  }

  lemma RoundsStep(q: seq<Connection>, i: int)
    requires 0 <= i <= |q|
    ensures Rounds(q, 0) == q
    ensures i > 0 ==> Rounds(q, i) == Round(Rounds(q, i - 1), |q| - i + 1)
  {
  }

  function FifoInsert(q: seq<Connection>, c: Connection, limit: int): seq<Connection> {
    if |q| < limit then q + [c] else q
  }

  function SffInsert(q: seq<Connection>, c: Connection, limit: int): seq<Connection> {
    var r := FifoInsert(q, c, limit);
    if |r| > 1 then SortedQueue(r) else r
  }

  lemma SffInsertIs(q: seq<Connection>, c: Connection, limit: int)
    ensures var r := FifoInsert(q, c, limit);
      SffInsert(q, c, limit) == if |r| > 1 then SortedQueue(r) else r
  {
  }

  /** After an insertion the queue is in order, so its front is a smallest request. */
  lemma SffInsertSorts(q: seq<Connection>, c: Connection, limit: int)
    ensures var r := SffInsert(q, c, limit);
      && Ascending(r) && multiset(Marked(r)) == multiset(Marked(FifoInsert(q, c, limit)))
      && |r| == |FifoInsert(q, c, limit)|
  {
    SortedQueueSorts(FifoInsert(q, c, limit));
  }

  /** Among requests of its size the new one comes first, and those that were there change
      their order. */
  lemma SffInsertTurns(q: seq<Connection>, c: Connection, limit: int, n: int)
    requires |q| < limit && c == Mark(c) && forall k :: 0 <= k < |q| ==> q[k] == Mark(q[k])
    ensures OfSize(SffInsert(q, c, limit), n) == (if c.filesize == n then [c] else []) + Reverse(OfSize(q, n))
  {
    hide SortedQueue, OfSize, Reverse;
    var r := q + [c];
    assert Marked(r) == r;
    OfSizeJoin(q, [c], n);
    OfSizeOne(c, n);
    SffInsertIs(q, c, limit);
    if |q| > 0 {
      EqualSizesReversed(r, n);
      MarkedOfSize(r, n);
      if c.filesize == n { ReverseLast(OfSize(q, n), c); } else { assert OfSize(r, n) == OfSize(q, n); }
    } else {
      NoneOfSize(q, n);
      ReverseNone();
      assert r == [c];
    }
  }

  lemma ReverseNone()
    ensures Reverse([]) == []
  {
  }

  lemma {:induction false} ReverseLast(q: seq<Connection>, c: Connection)
    ensures Reverse(q + [c]) == [c] + Reverse(q)
  {
    if q == [] { assert q + [c] == [c]; } else {
      assert (q + [c])[1..] == q[1..] + [c];
      ReverseLast(q[1..], c);
    }
  }

  lemma {:induction false} MarkedOfSize(q: seq<Connection>, n: int)
    requires Marked(q) == q
    ensures Marked(OfSize(q, n)) == OfSize(q, n)
  {
    if q != [] {
      var last := |q| - 1;
      assert forall k :: 0 <= k < |q| ==> Marked(q)[k] == q[k];
      assert Marked(q[..last]) == q[..last];
      MarkedOfSize(q[..last], n);
      assert forall k :: 0 <= k < |OfSize(q[..last], n)| ==> Marked(OfSize(q[..last], n))[k] == OfSize(q[..last], n)[k];
    }
  }
}
