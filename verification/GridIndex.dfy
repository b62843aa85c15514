/** Row-major indices of a rectangular buffer. */
module GridIndex {
  function At(side: int, x: int, y: int): int { y * side + x }

  lemma AtInside(side: nat, x: nat, y: nat, rows: nat)
    requires x < side && y < rows
    ensures 0 <= At(side, x, y) < side * rows
  {
    assert y * side + side == (y + 1) * side;
    assert (y + 1) * side <= rows * side;
  }

  lemma RowsApart(side: nat, y: nat, v: nat)
    ensures y < v ==> y * side + side <= v * side
    ensures y <= v ==> y * side <= v * side
  {
    if y < v {
      assert (y + 1) * side <= v * side;
    }
  }

  lemma AtInjective(side: nat, x: nat, y: nat, u: nat, v: nat)
    requires x < side && u < side && At(side, x, y) == At(side, u, v)
    ensures x == u && y == v
  {
    RowsApart(side, y, v);
    RowsApart(side, v, y);
  }

  lemma AtSurjective(side: nat, rows: nat, i: nat)
    requires 0 < side && i < side * rows
    ensures i % side < side && i / side < rows && At(side, i % side, i / side) == i
  {
    assert i == side * (i / side) + i % side;
    RowsApart(side, rows, i / side);
  }

  lemma AtDecomposes(side: nat, x: nat, y: nat, rows: nat)
    requires x < side && y < rows
    ensures 0 <= At(side, x, y) < side * rows
    ensures At(side, x, y) % side == x && At(side, x, y) / side == y
  {
    AtInside(side, x, y, rows);
    AtSurjective(side, rows, At(side, x, y));
    AtInjective(side, x, y, At(side, x, y) % side, At(side, x, y) / side);
  }

  lemma SameRows<T>(a: seq<T>, b: seq<T>, side: nat, rows: nat)
    requires |a| == |b| == side * rows
    requires forall x: nat, y: nat :: x < side && y < rows ==>
               0 <= At(side, x, y) < |a| && a[At(side, x, y)] == b[At(side, x, y)]
    ensures a == b
  {
    forall i | 0 <= i < |a|
      ensures a[i] == b[i]
    {
      assert side > 0;
      AtSurjective(side, rows, i);
    }
  }
}
