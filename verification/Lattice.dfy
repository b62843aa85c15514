/** Points of the integer plane, their cardinal neighbours, and connectivity by unit steps. */
module Lattice {
  import opened MachineInts

  datatype Point = Point(x: int, y: int)

  /** A quadrant coordinate: both components are 64-bit. */
  type Coord = p: Point | InI64(p.x) && InI64(p.y) witness Point(0, 0)

  predicate InRange(p: Point) { InI64(p.x) && InI64(p.y) }

  predicate Adjacent(a: Point, b: Point) {
    Abs(a.x - b.x) + Abs(a.y - b.y) == 1
  }

  /** Row-major order: by y, then by x. */
  predicate Before(a: Point, b: Point) {
    a.y < b.y || (a.y == b.y && a.x < b.x)
  }

  // ----- Paths -----

  ghost predicate Path(p: seq<Point>, inside: iset<Point>) {
    && p != []
    && (forall i :: 0 <= i < |p| ==> p[i] in inside)
    && (forall i :: 0 < i < |p| ==> Adjacent(p[i - 1], p[i]))
  }

  ghost predicate PathFromTo(p: seq<Point>, inside: iset<Point>, a: Point, b: Point) {
    Path(p, inside) && p[0] == a && p[|p| - 1] == b
  }

  ghost predicate Linked(inside: iset<Point>, a: Point, b: Point) {
    exists p :: PathFromTo(p, inside, a, b)
  }

  /** Any two points of the region are joined by a path of unit steps inside it. */
  ghost predicate Connected(inside: iset<Point>) {
    forall a, b :: a in inside && b in inside ==> Linked(inside, a, b)
  }

  lemma LinkedSelf(inside: iset<Point>, a: Point)
    requires a in inside
    ensures Linked(inside, a, a)
  {
    assert PathFromTo([a], inside, a, a);
  }

  lemma LinkedStep(inside: iset<Point>, a: Point, b: Point)
    requires a in inside && b in inside && Adjacent(a, b)
    ensures Linked(inside, a, b)
  {
    assert PathFromTo([a, b], inside, a, b);
  }

  lemma LinkedTransitive(inside: iset<Point>, a: Point, b: Point, c: Point)
    requires Linked(inside, a, b) && Linked(inside, b, c)
    ensures Linked(inside, a, c)
  {
    var p :| PathFromTo(p, inside, a, b);
    var q :| PathFromTo(q, inside, b, c);
    var joined := p + q[1..];
    forall i | 0 < i < |joined|
      ensures Adjacent(joined[i - 1], joined[i])
    {
      if i >= |p| {
        assert joined[i] == q[i - |p| + 1];
        assert joined[i - 1] == q[i - |p|];
      }
    }
    assert PathFromTo(joined, inside, a, c);
  }

  lemma {:induction false} PathReversible(p: seq<Point>, inside: iset<Point>, a: Point, b: Point)
    requires PathFromTo(p, inside, a, b)
    ensures Linked(inside, b, a)
    decreases |p|
  {
    if |p| == 1 {
      LinkedSelf(inside, a);
    } else {
      assert Adjacent(p[0], p[1]);
      assert forall i :: 0 < i < |p[1..]| ==> p[1..][i - 1] == p[i] && p[1..][i] == p[i + 1];
      PathReversible(p[1..], inside, p[1], b);
      LinkedStep(inside, p[1], a);
      LinkedTransitive(inside, b, p[1], a);
    }
  }

  lemma LinkedSymmetric(inside: iset<Point>, a: Point, b: Point)
    requires Linked(inside, a, b)
    ensures Linked(inside, b, a)
  {
    var p :| PathFromTo(p, inside, a, b);
    PathReversible(p, inside, a, b);
  }

  lemma LinkedGrows(inside: iset<Point>, larger: iset<Point>, a: Point, b: Point)
    requires inside <= larger && Linked(inside, a, b)
    ensures Linked(larger, a, b)
  {
    var p :| PathFromTo(p, inside, a, b);
    assert PathFromTo(p, larger, a, b);
  }

  /** A region whose points are all linked to one hub is connected. */
  lemma HubConnects(inside: iset<Point>, hub: Point)
    requires forall a :: a in inside ==> Linked(inside, a, hub)
    ensures Connected(inside)
  {
    forall a, b | a in inside && b in inside
      ensures Linked(inside, a, b)
    {
      LinkedSymmetric(inside, b, hub);
      LinkedTransitive(inside, a, hub, b);
    }
  }

  /** Adding a point next to a connected region keeps it connected. */
  lemma ConnectedExtends(inside: iset<Point>, added: Point, neighbor: Point)
    requires Connected(inside) && neighbor in inside && Adjacent(added, neighbor)
    ensures Connected(inside + iset{added})
  {
    var larger := inside + iset{added};
    forall a | a in larger
      ensures Linked(larger, a, neighbor)
    {
      if a in inside {
        LinkedGrows(inside, larger, a, neighbor);
      } else {
        LinkedStep(larger, added, neighbor);
      }
    }
    HubConnects(larger, neighbor);
  }

  // ----- Row-major sorting -----

  predicate RowMajor(s: seq<Point>) {
    forall i, j :: 0 <= i < j < |s| ==> Before(s[i], s[j])
  }

  predicate NoDuplicates(s: seq<Point>) {
    forall i, j :: 0 <= i < j < |s| ==> s[i] != s[j]
  }

  ghost function Elements(s: seq<Point>): set<Point> {
    set p | p in s
  }

  /** A row-major sequence is determined by its set of points. */
  lemma {:induction false} RowMajorUnique(a: seq<Point>, b: seq<Point>)
    requires RowMajor(a) && RowMajor(b)
    requires forall p :: p in a <==> p in b
    ensures a == b
    decreases |a|
  {
    assert a != [] ==> a[0] in b;
    assert b != [] ==> b[0] in a;
    if a != [] && b != [] {
      assert a[0] == b[0];
      forall p
        ensures p in a[1..] <==> p in b[1..]
      {
        assert p in a <==> p == a[0] || p in a[1..];
        assert p in b <==> p == b[0] || p in b[1..];
        assert a[0] !in a[1..] && b[0] !in b[1..];
      }
      RowMajorUnique(a[1..], b[1..]);
      assert a == [a[0]] + a[1..] && b == [b[0]] + b[1..];
    }
  }

  function Insert(p: Point, s: seq<Point>): (r: seq<Point>)
    requires RowMajor(s) && p !in s
    ensures RowMajor(r) && |r| == |s| + 1
    ensures forall q :: q in r <==> q == p || q in s
  {
    if s == [] then [p]
    else if Before(p, s[0]) then [p] + s
    else
      assert forall q :: q in s <==> q == s[0] || q in s[1..];
      var rest := Insert(p, s[1..]);
      assert forall q :: q in rest ==> Before(s[0], q);
      [s[0]] + rest
  }

  /** Sorting by (y, x) a sequence without duplicates. */
  function Sorted(s: seq<Point>): (r: seq<Point>)
    requires NoDuplicates(s)
    ensures RowMajor(r) && |r| == |s|
    ensures forall q :: q in r <==> q in s
  {
    if s == [] then []
    else
      assert s[0] !in s[1..];
      assert forall q :: q in s <==> q == s[0] || q in s[1..];
      Insert(s[0], Sorted(s[1..]))
  }

  /** The sorted form depends only on which points are present. */
  lemma SortedByElements(a: seq<Point>, b: seq<Point>)
    requires NoDuplicates(a) && NoDuplicates(b)
    requires forall p :: p in a <==> p in b
    ensures Sorted(a) == Sorted(b)
  {
    RowMajorUnique(Sorted(a), Sorted(b));
  }

  lemma RowMajorNoDuplicates(s: seq<Point>)
    requires RowMajor(s)
    ensures NoDuplicates(s)
  {
  }
}
