/** Swept, axis-separated collision against static blockers
    (crates/simulation/src/traversal.rs). */
module Traversal {
  import opened MachineInts
  import opened Movement

  datatype BlockerFields = Blocker(minX: i64, maxX: i64, minY: i64, maxY: i64)

  /** `StaticTraversalBlocker::new` rejects empty extents. */
  type Blocker = b: BlockerFields | b.minX < b.maxX && b.minY < b.maxY witness Blocker(0, 1, 0, 1)

  datatype Position = Position(x: i64, y: i64, z: i64)

  datatype TraversalError = InvalidRadius | ExpansionOverflow | OverlapsBlocker | CandidateOverflow

  // ----- Expanded blockers -----

  predicate Expandable(b: Blocker, radius: int) {
    InI64(b.minX - radius) && InI64(b.maxX + radius) && InI64(b.minY - radius) && InI64(b.maxY + radius)
  }

  predicate InsideX(b: Blocker, radius: int, x: int) { b.minX - radius < x < b.maxX + radius }

  predicate InsideY(b: Blocker, radius: int, y: int) { b.minY - radius < y < b.maxY + radius }

  /** The point lies strictly inside no blocker grown by the radius, and every growth fits. */
  predicate Legal(blockers: seq<Blocker>, radius: int, x: int, y: int) {
    && 0 < radius
    && forall i :: 0 <= i < |blockers| ==>
         Expandable(blockers[i], radius) && !(InsideX(blockers[i], radius, x) && InsideY(blockers[i], radius, y))
  }

  // ----- One axis leg -----

  /** What one blocker bars on the axis of travel: the open interval, if it lies across the path. */
  datatype Span = Span(lo: int, hi: int, across: bool)

  predicate Enters(span: Span, p: int) { span.across && span.lo < p < span.hi }

  predicate Between(a: int, b: int, p: int) { Min(a, b) <= p <= Max(a, b) }

  /** No point of the swept path from `a` to `b` strictly enters a barred interval. */
  ghost predicate ClearLeg(spans: seq<Span>, a: int, b: int) {
    forall i, p :: 0 <= i < |spans| && Between(a, b, p) ==> !Enters(spans[i], p)
  }

  /** `stop` is the farthest point on the way to `to` that a clear leg reaches. */
  ghost predicate Farthest(spans: seq<Span>, start: int, to: int, stop: int) {
    && Between(start, to, stop)
    && ClearLeg(spans, start, stop)
    && forall t :: Between(start, to, t) && ClearLeg(spans, start, t) ==> Abs(t - start) <= Abs(stop - start)
  }

  function SpansX(blockers: seq<Blocker>, radius: int, y: int): seq<Span> {
    seq(|blockers|, i requires 0 <= i < |blockers| =>
      Span(blockers[i].minX - radius, blockers[i].maxX + radius, InsideY(blockers[i], radius, y)))
  }

  function SpansY(blockers: seq<Blocker>, radius: int, x: int): seq<Span> {
    seq(|blockers|, i requires 0 <= i < |blockers| =>
      Span(blockers[i].minY - radius, blockers[i].maxY + radius, InsideX(blockers[i], radius, x)))
  }

  /** The span stops travel from `start` to `to`, at its near edge. */
  predicate Stops(span: Span, start: int, to: int) {
    span.across && ((start <= span.lo < to) || (to < span.hi <= start))
  }

  function NearEdge(span: Span, start: int, to: int): int {
    if to > start then span.lo else span.hi
  }

  /** The nearest edge that stops the leg, or its end, is the farthest clear point. */
  lemma NearestEdgeIsFarthest(spans: seq<Span>, start: int, to: int, stop: int)
    requires forall i :: 0 <= i < |spans| ==> spans[i].lo + 1 < spans[i].hi && !Enters(spans[i], start)
    requires Between(start, to, stop)
    requires forall i :: 0 <= i < |spans| && Stops(spans[i], start, to) ==>
               Between(start, NearEdge(spans[i], start, to), stop)
    requires stop == to
             || exists i :: 0 <= i < |spans| && Stops(spans[i], start, to) && stop == NearEdge(spans[i], start, to)
    ensures Farthest(spans, start, to, stop)
  {
    forall i, p | 0 <= i < |spans| && Between(start, stop, p)
      ensures !Enters(spans[i], p)
    {
      assert !Enters(spans[i], start);
      assert Stops(spans[i], start, to) ==> Between(start, NearEdge(spans[i], start, to), stop);
    }
    forall t | Between(start, to, t) && ClearLeg(spans, start, t)
      ensures Abs(t - start) <= Abs(stop - start)
    {
      if stop != to && Abs(stop - start) < Abs(t - start) {
        var i :| 0 <= i < |spans| && Stops(spans[i], start, to) && stop == NearEdge(spans[i], start, to);
        var p := if to > start then stop + 1 else stop - 1;
        assert Enters(spans[i], p) && Between(start, t, p);
        assert false;
      }
    }
  }

  // ----- The world -----

  datatype Resolution = Resolution(position: Position, actual: Vector, constrainedX: bool, constrainedY: bool)

  /** A displacement as produced by one tick: two signed 64-bit components. */
  type Delta = v: Vector | InI64(v.x) && InI64(v.y) witness Vector(0, 0)

  /** The position one horizontal move ends in: farthest clear point along X at the old Y, then
      farthest clear point along Y at the new X. */
  ghost predicate Resolves(blockers: seq<Blocker>, radius: int, start: Position, desired: Delta, end: Position) {
    && Farthest(SpansX(blockers, radius, start.y), start.x, start.x + desired.x, end.x)
    && Farthest(SpansY(blockers, radius, end.x), start.y, start.y + desired.y, end.y)
    && end.z == start.z
  }

  // ----- The move in plain terms -----

  /** The point lies strictly inside the blocker grown by the radius on all sides. */
  predicate Touches(b: Blocker, radius: int, x: int, y: int) {
    b.minX - radius < x < b.maxX + radius && b.minY - radius < y < b.maxY + radius
  }

  predicate Free(blockers: seq<Blocker>, radius: int, x: int, y: int) {
    forall i :: 0 <= i < |blockers| ==> !Touches(blockers[i], radius, x, y)
  }

  /** One step from `a` towards `b`. */
  function OneStep(a: int, b: int): int { if a < b then a + 1 else a - 1 }

  /** First along X at the old Y, then along Y at the new X; each leg passes free points only, and ends
      where it wants to or one step before a point that is not free. */
  ghost predicate Walks(blockers: seq<Blocker>, radius: int, start: Position, desired: Delta, end: Position) {
    && end.z == start.z
    && Between(start.x, start.x + desired.x, end.x)
    && (forall p :: Between(start.x, end.x, p) ==> Free(blockers, radius, p, start.y))
    && (end.x != start.x + desired.x ==> !Free(blockers, radius, OneStep(end.x, start.x + desired.x), start.y))
    && Between(start.y, start.y + desired.y, end.y)
    && (forall q :: Between(start.y, end.y, q) ==> Free(blockers, radius, end.x, q))
    && (end.y != start.y + desired.y ==> !Free(blockers, radius, end.x, OneStep(end.y, start.y + desired.y)))
  }

  /** A point where every span leaves off. */
  predicate Unbarred(spans: seq<Span>, p: int) {
    forall i :: 0 <= i < |spans| ==> !Enters(spans[i], p)
  }

  lemma FarthestIff(spans: seq<Span>, start: int, to: int, stop: int)
    ensures Farthest(spans, start, to, stop) <==>
              && Between(start, to, stop)
              && (forall p :: Between(start, stop, p) ==> Unbarred(spans, p))
              && (stop != to ==> !Unbarred(spans, OneStep(stop, to)))
  {
    if Farthest(spans, start, to, stop) {
      forall p | Between(start, stop, p)
        ensures Unbarred(spans, p)
      {
      }
      if stop != to {
        BarredBeyond(spans, start, to, stop);
      }
    }
    if && Between(start, to, stop)
       && (forall p :: Between(start, stop, p) ==> Unbarred(spans, p))
       && (stop != to ==> !Unbarred(spans, OneStep(stop, to)))
    {
      NoneFarther(spans, start, to, stop);
    }
  }

  lemma BarredBeyond(spans: seq<Span>, start: int, to: int, stop: int)
    requires Farthest(spans, start, to, stop) && stop != to
    ensures !Unbarred(spans, OneStep(stop, to))
  {
    var next := OneStep(stop, to);
    assert Between(start, to, next) && Abs(next - start) > Abs(stop - start);
    assert !ClearLeg(spans, start, next);
    var i, p :| 0 <= i < |spans| && Between(start, next, p) && Enters(spans[i], p);
    assert Between(start, stop, p) || p == next;
  }

  lemma NoneFarther(spans: seq<Span>, start: int, to: int, stop: int)
    requires Between(start, to, stop)
    requires forall p :: Between(start, stop, p) ==> Unbarred(spans, p)
    requires stop != to ==> !Unbarred(spans, OneStep(stop, to))
    ensures Farthest(spans, start, to, stop)
  {
    forall i, p | 0 <= i < |spans| && Between(start, stop, p)
      ensures !Enters(spans[i], p)
    {
      assert Unbarred(spans, p);
    }
    forall t | Between(start, to, t) && ClearLeg(spans, start, t)
      ensures Abs(t - start) <= Abs(stop - start)
    {
      if stop != to && Between(start, t, OneStep(stop, to)) {
        ClearAt(spans, start, t, OneStep(stop, to));
      }
    }
  }

  lemma ClearAt(spans: seq<Span>, start: int, end: int, p: int)
    requires ClearLeg(spans, start, end) && Between(start, end, p)
    ensures Unbarred(spans, p)
  {
  }

  lemma UnbarredIsFreeX(blockers: seq<Blocker>, radius: int, y: int, p: int)
    ensures Unbarred(SpansX(blockers, radius, y), p) <==> Free(blockers, radius, p, y)
  {
    var spans := SpansX(blockers, radius, y);
    assert forall i :: 0 <= i < |blockers| ==> (Enters(spans[i], p) <==> Touches(blockers[i], radius, p, y));
  }

  lemma UnbarredIsFreeY(blockers: seq<Blocker>, radius: int, x: int, q: int)
    ensures Unbarred(SpansY(blockers, radius, x), q) <==> Free(blockers, radius, x, q)
  {
    var spans := SpansY(blockers, radius, x);
    assert forall i :: 0 <= i < |blockers| ==> (Enters(spans[i], q) <==> Touches(blockers[i], radius, x, q));
  }

  /** The farthest clear points, leg by leg, are this walk and no other. */
  lemma ResolvesIffWalks(blockers: seq<Blocker>, radius: int, start: Position, desired: Delta, end: Position)
    ensures Resolves(blockers, radius, start, desired, end) <==> Walks(blockers, radius, start, desired, end)
  {
    FarthestIff(SpansX(blockers, radius, start.y), start.x, start.x + desired.x, end.x);
    FarthestIff(SpansY(blockers, radius, end.x), start.y, start.y + desired.y, end.y);
    forall p
      ensures Unbarred(SpansX(blockers, radius, start.y), p) <==> Free(blockers, radius, p, start.y)
    {
      UnbarredIsFreeX(blockers, radius, start.y, p);
    }
    forall q
      ensures Unbarred(SpansY(blockers, radius, end.x), q) <==> Free(blockers, radius, end.x, q)
    {
      UnbarredIsFreeY(blockers, radius, end.x, q);
    }
  }

  /** The x a move ends at does not depend on how far it wants to go along y. */
  lemma XLegComesFirst(
    blockers: seq<Blocker>, radius: int, start: Position, a: Delta, b: Delta, endA: Position, endB: Position)
    requires Resolves(blockers, radius, start, a, endA) && Resolves(blockers, radius, start, b, endB) && a.x == b.x
    ensures endA.x == endB.x
  {
    FarthestAgreesX(blockers, blockers, radius, start.y, start.x, start.x + a.x, endA.x, endB.x);
  }

  /** Legal ground: a positive radius, every growth within 64 bits, and a free point. */
  lemma LegalIff(blockers: seq<Blocker>, radius: int, x: int, y: int)
    ensures Legal(blockers, radius, x, y) <==>
              && 0 < radius && Free(blockers, radius, x, y)
              && forall i :: 0 <= i < |blockers| ==>
                   && InI64(blockers[i].minX - radius) && InI64(blockers[i].maxX + radius)
                   && InI64(blockers[i].minY - radius) && InI64(blockers[i].maxY + radius)
  {
  }

  class TraversalWorld {
    var blockers: seq<Blocker>

    constructor ()
      ensures blockers == []
    {
      blockers := [];
    }

    method AddStaticBlocker(blocker: Blocker)
      modifies this
      ensures blockers == old(blockers) + [blocker]
    {
      blockers := blockers + [blocker];
    }

    method ValidatePlacement(position: Position, radius: int) returns (r: Result<(), TraversalError>)
      ensures r.Ok? <==> Legal(blockers, radius, position.x, position.y)
      ensures r == Err(InvalidRadius) <==> radius <= 0
      ensures r.Err? ==> r.error != CandidateOverflow
    {
      if radius <= 0 {
        return Err(InvalidRadius);
      }
      for i := 0 to |blockers|
        invariant Legal(blockers[..i], radius, position.x, position.y)
      {
        if !Expandable(blockers[i], radius) {
          return Err(ExpansionOverflow);
        }
        if InsideX(blockers[i], radius, position.x) && InsideY(blockers[i], radius, position.y) {
          return Err(OverlapsBlocker);
        }
      }
      assert blockers[..|blockers|] == blockers;
      r := Ok(());
    }

    method ResolveX(currentX: i64, desiredX: i64, y: i64, radius: int) returns (resolved: i64)
      requires Legal(blockers, radius, currentX, y)
      ensures Farthest(SpansX(blockers, radius, y), currentX, desiredX, resolved)
    {
      resolved := desiredX;
      ghost var spans := SpansX(blockers, radius, y);
      for i := 0 to |blockers|
        invariant Between(currentX, desiredX, resolved)
        invariant forall k :: 0 <= k < i && Stops(spans[k], currentX, desiredX)
                    ==> Between(currentX, NearEdge(spans[k], currentX, desiredX), resolved)
        invariant resolved == desiredX
                  || exists k :: 0 <= k < i && Stops(spans[k], currentX, desiredX)
                       && resolved == NearEdge(spans[k], currentX, desiredX)
      {
        var blocker := blockers[i];
        assert Expandable(blocker, radius);
        var minX: i64, maxX: i64 := blocker.minX - radius, blocker.maxX + radius;
        ghost var before := resolved;
        if InsideY(blocker, radius, y) {
          if desiredX > currentX && currentX <= minX && desiredX > minX {
            resolved := Min(resolved, minX);
          } else if desiredX < currentX && currentX >= maxX && desiredX < maxX {
            resolved := Max(resolved, maxX);
          }
        }
        assert resolved == before
                 || (Stops(spans[i], currentX, desiredX) && resolved == NearEdge(spans[i], currentX, desiredX));
      }
      NearestEdgeIsFarthest(spans, currentX, desiredX, resolved);
    }

    method ResolveY(currentY: i64, desiredY: i64, x: i64, radius: int) returns (resolved: i64)
      requires Legal(blockers, radius, x, currentY)
      ensures Farthest(SpansY(blockers, radius, x), currentY, desiredY, resolved)
    {
      resolved := desiredY;
      ghost var spans := SpansY(blockers, radius, x);
      for i := 0 to |blockers|
        invariant Between(currentY, desiredY, resolved)
        invariant forall k :: 0 <= k < i && Stops(spans[k], currentY, desiredY)
                    ==> Between(currentY, NearEdge(spans[k], currentY, desiredY), resolved)
        invariant resolved == desiredY
                  || exists k :: 0 <= k < i && Stops(spans[k], currentY, desiredY)
                       && resolved == NearEdge(spans[k], currentY, desiredY)
      {
        var blocker := blockers[i];
        assert Expandable(blocker, radius);
        var minY: i64, maxY: i64 := blocker.minY - radius, blocker.maxY + radius;
        ghost var before := resolved;
        if InsideX(blocker, radius, x) {
          if desiredY > currentY && currentY <= minY && desiredY > minY {
            resolved := Min(resolved, minY);
          } else if desiredY < currentY && currentY >= maxY && desiredY < maxY {
            resolved := Max(resolved, maxY);
          }
        }
        assert resolved == before
                 || (Stops(spans[i], currentY, desiredY) && resolved == NearEdge(spans[i], currentY, desiredY));
      }
      NearestEdgeIsFarthest(spans, currentY, desiredY, resolved);
    }

    /** Fails exactly when the start is illegal or the wished-for target leaves 64 bits; the
        final placement check cannot fail. */
    method ResolveHorizontal(position: Position, desired: Delta, radius: int)
      returns (r: Result<Resolution, TraversalError>)
      ensures r.Ok? <==> Legal(blockers, radius, position.x, position.y)
                         && InI64(position.x + desired.x) && InI64(position.y + desired.y)
      ensures r == Err(CandidateOverflow) <==>
                && Legal(blockers, radius, position.x, position.y)
                && !(InI64(position.x + desired.x) && InI64(position.y + desired.y))
      ensures r.Ok? ==> Walks(blockers, radius, position, desired, r.value.position)
      ensures r.Ok? ==>
                var end := r.value.position;
                && Resolves(blockers, radius, position, desired, end)
                && Legal(blockers, radius, end.x, end.y)
                && r.value.actual == Vector(end.x - position.x, end.y - position.y)
                && r.value.constrainedX == (end.x != position.x + desired.x)
                && r.value.constrainedY == (end.y != position.y + desired.y)
    {
      var placed := ValidatePlacement(position, radius);
      if placed.Err? {
        return Err(placed.error);
      }
      if !InI64(position.x + desired.x) {
        return Err(CandidateOverflow);
      }
      var resolvedX := ResolveX(position.x, position.x + desired.x, position.y, radius);
      if !InI64(position.y + desired.y) {
        return Err(CandidateOverflow);
      }
      LegEndsLegalX(blockers, radius, position, resolvedX);
      var resolvedY := ResolveY(position.y, position.y + desired.y, resolvedX, radius);
      var resolved := Position(resolvedX, resolvedY, position.z);
      LegEndsLegalY(blockers, radius, resolvedX, position.y, resolvedY);
      var checked := ValidatePlacement(resolved, radius);
      if checked.Err? {
        assert false;
        return Err(OverlapsBlocker);
      }
      var actual := Vector(resolvedX - position.x, resolvedY - position.y);
      ResolvesIffWalks(blockers, radius, position, desired, resolved);
      r := Ok(Resolution(resolved, actual, actual.x != desired.x, actual.y != desired.y));
    }
  }

  lemma LegEndsLegalX(blockers: seq<Blocker>, radius: int, position: Position, x: i64)
    requires Legal(blockers, radius, position.x, position.y)
    requires ClearLeg(SpansX(blockers, radius, position.y), position.x, x)
    ensures Legal(blockers, radius, x, position.y)
  {
    forall i | 0 <= i < |blockers|
      ensures !(InsideX(blockers[i], radius, x) && InsideY(blockers[i], radius, position.y))
    {
      var spans := SpansX(blockers, radius, position.y);
      assert Between(position.x, x, x);
      assert !Enters(spans[i], x);
    }
  }

  lemma LegEndsLegalY(blockers: seq<Blocker>, radius: int, x: i64, y: i64, end: i64)
    requires Legal(blockers, radius, x, y)
    requires ClearLeg(SpansY(blockers, radius, x), y, end)
    ensures Legal(blockers, radius, x, end)
  {
    forall i | 0 <= i < |blockers|
      ensures !(InsideX(blockers[i], radius, x) && InsideY(blockers[i], radius, end))
    {
      var spans := SpansY(blockers, radius, x);
      assert Between(y, end, end);
      assert !Enters(spans[i], end);
    }
  }

  // ----- Independence of the blocker order -----

  ghost predicate SameBlockers(a: seq<Blocker>, b: seq<Blocker>) {
    forall x :: x in a <==> x in b
  }

  lemma ClearLegTransfersX(a: seq<Blocker>, b: seq<Blocker>, radius: int, y: int, start: int, end: int)
    requires SameBlockers(a, b) && ClearLeg(SpansX(a, radius, y), start, end)
    ensures ClearLeg(SpansX(b, radius, y), start, end)
  {
    forall i, p | 0 <= i < |b| && Between(start, end, p)
      ensures !Enters(SpansX(b, radius, y)[i], p)
    {
      assert b[i] in a;
      var k :| 0 <= k < |a| && a[k] == b[i];
      assert !Enters(SpansX(a, radius, y)[k], p);
    }
  }

  lemma ClearLegTransfersY(a: seq<Blocker>, b: seq<Blocker>, radius: int, x: int, start: int, end: int)
    requires SameBlockers(a, b) && ClearLeg(SpansY(a, radius, x), start, end)
    ensures ClearLeg(SpansY(b, radius, x), start, end)
  {
    forall i, p | 0 <= i < |b| && Between(start, end, p)
      ensures !Enters(SpansY(b, radius, x)[i], p)
    {
      assert b[i] in a;
      var k :| 0 <= k < |a| && a[k] == b[i];
      assert !Enters(SpansY(a, radius, x)[k], p);
    }
  }

  lemma FarthestAgreesX(a: seq<Blocker>, b: seq<Blocker>, radius: int, y: int, start: int, to: int, s: int, t: int)
    requires SameBlockers(a, b)
    requires Farthest(SpansX(a, radius, y), start, to, s) && Farthest(SpansX(b, radius, y), start, to, t)
    ensures s == t
  {
    ClearLegTransfersX(a, b, radius, y, start, s);
    ClearLegTransfersX(b, a, radius, y, start, t);
  }

  lemma FarthestAgreesY(a: seq<Blocker>, b: seq<Blocker>, radius: int, x: int, start: int, to: int, s: int, t: int)
    requires SameBlockers(a, b)
    requires Farthest(SpansY(a, radius, x), start, to, s) && Farthest(SpansY(b, radius, x), start, to, t)
    ensures s == t
  {
    ClearLegTransfersY(a, b, radius, x, start, s);
    ClearLegTransfersY(b, a, radius, x, start, t);
  }

  /** Any order and any repetition of the same blockers resolves a move to the same point. */
  lemma BlockerOrderIrrelevant(a: seq<Blocker>, b: seq<Blocker>, radius: int, start: Position, desired: Delta,
                               endA: Position, endB: Position)
    requires SameBlockers(a, b)
    requires Resolves(a, radius, start, desired, endA) && Resolves(b, radius, start, desired, endB)
    ensures endA == endB
  {
    FarthestAgreesX(a, b, radius, start.y, start.x, start.x + desired.x, endA.x, endB.x);
    FarthestAgreesY(a, b, radius, endA.x, start.y, start.y + desired.y, endA.y, endB.y);
  }

  lemma NothingBars(spans: seq<Span>, start: int, to: int)
    requires spans == []
    ensures Farthest(spans, start, to, to)
  {
  }

  /** In free space a move is never shortened. */
  lemma FreeSpaceUnconstrained(radius: int, start: Position, desired: Delta, end: Position)
    requires Resolves([], radius, start, desired, end)
    ensures end.x == start.x + desired.x && end.y == start.y + desired.y
  {
    NothingBars(SpansX([], radius, start.y), start.x, start.x + desired.x);
    NothingBars(SpansY([], radius, end.x), start.y, start.y + desired.y);
  }
}
