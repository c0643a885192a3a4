/** The sampled turn: its grid, and the segment tags of its samples. */
module CurveTags {
  import opened Reals
  import opened Trig
  import opened Kinematics
  import opened Cycle
  import opened CyclePoint
  import opened WholeTurn

  // ---- The grid -----------------------------------------------------------------------------------

  /** The grid runs strictly upward from 0 to exactly a full turn. */
  lemma GridCoversTurn(n: int, i: int, j: int)
    requires 2 <= n && 0 <= i < j < n
    ensures GridAngle(n, 0) == 0.0 && GridAngle(n, n - 1) == FULL_TURN
    ensures 0.0 <= GridAngle(n, i) < GridAngle(n, j) <= FULL_TURN
  {
    var m := (n - 1) as real;
    DivUnique(0.0, m, 0.0);
    DivUnique(FULL_TURN * m, m, FULL_TURN);
    GridBetween(n, 0, i);
    GridBetween(n, i, j);
    GridBetween(n, j, n - 1);
  }

  lemma GridBetween(n: int, i: int, j: int)
    requires 2 <= n && 0 <= i <= j < n
    ensures GridAngle(n, i) <= GridAngle(n, j) && (i < j ==> GridAngle(n, i) < GridAngle(n, j))
  {
    var m := (n - 1) as real;
    DivMono(FULL_TURN * i as real, FULL_TURN * j as real, m);
    DivMul(FULL_TURN * i as real, m);
    DivMul(FULL_TURN * j as real, m);
  }

  lemma GridInTurn(n: int, i: int)
    requires 2 <= n && 0 <= i < n
    ensures 0.0 <= GridAngle(n, i) <= FULL_TURN
  {
    if i < n - 1 {
      GridCoversTurn(n, i, n - 1);
    } else {
      GridCoversTurn(n, 0, n - 1);
    }
  }

  /** A stitched turn answers at every grid angle, so sampling fails only on an oversized grid. */
  lemma CurveNeverFails(t: Circle, c: Config, n: int)
    requires c.Valid() && 2 <= n
    ensures Stitched(c).Usable()
    ensures forall i :: 0 <= i < n ==> Stitched(c).Point(t, GridAngle(n, i)).Success?
  {
    hide StitchedList, GridAngle, Segments.Point;
    StitchedUsable(c);
    forall i | 0 <= i < n
      ensures Stitched(c).Point(t, GridAngle(n, i)).Success?
    {
      GridInTurn(n, i);
      PointAnswers(t, c, GridAngle(n, i));
    }
  }

  // ---- The lookup moves forward ---------------------------------------------------------------------

  lemma LocatedBounds(c: Config, theta: real)
    requires c.Valid() && 0.0 <= theta < FULL_TURN
    ensures Stitched(c).Usable()
    ensures var b := Stitched(c);
      var k := b.LocateIndex(theta);
      b.all[k].start <= theta && (theta <= b.all[k].end || k == |b.all| - 1)
  {
    hide StitchedList;
    StitchedUsable(c);
    ListInOrder(c);
    var b := Stitched(c);
    var d, h := b.FirstHit(theta, true, 0), b.FirstHit(theta, false, 0);
    if d == |b.all| && h == |b.all| {
      NoHitLeavesLast(c, theta);
    }
  }

  lemma EarlierEndsFirst(c: Config, i: nat, j: nat)
    requires c.Valid() && i < j < |StitchedList(c)|
    ensures StitchedList(c)[i].end <= StitchedList(c)[j].start
  {
    hide StitchedList;
    ListInOrder(c);
    var a, b := StitchedList(c)[i], StitchedList(c)[j];
    assert a == SegmentOf(c, a.kind) && b == SegmentOf(c, b.kind);
  }

  /** A later angle is never answered by an earlier segment. */
  lemma LocateIsMonotone(c: Config, x: real, y: real)
    requires c.Valid() && 0.0 <= x <= y <= FULL_TURN
    ensures Stitched(c).Usable()
    ensures Stitched(c).LocateIndex(x) <= Stitched(c).LocateIndex(y)
  {
    hide StitchedList;
    StitchedUsable(c);
    if y < FULL_TURN {
      LocatedBounds(c, x);
      LocatedBounds(c, y);
      var i, j := Stitched(c).LocateIndex(x), Stitched(c).LocateIndex(y);
      if j < i {
        EarlierEndsFirst(c, j, i);
      }
    }
  }

  /** The tags of a sampled turn are blocks in stitching order. */
  lemma TagsAreBlocks(c: Config, n: int, i: int, j: int)
    requires c.Valid() && 2 <= n && 0 <= i <= j < n
    ensures Stitched(c).Usable()
    ensures var b := Stitched(c);
      Rank(b.all[b.LocateIndex(GridAngle(n, i))].kind) <= Rank(b.all[b.LocateIndex(GridAngle(n, j))].kind)
  {
    hide StitchedList, GridAngle, Segments.LocateIndex, Segments.FirstHit;
    GridInTurn(n, i);
    GridInTurn(n, j);
    GridBetween(n, i, j);
    StitchedUsable(c);
    ListInOrder(c);
    LocateIsMonotone(c, GridAngle(n, i), GridAngle(n, j));
  }

  /** Strictly inside a segment there is no tie. */
  lemma LocateInside(c: Config, theta: real, kind: Kind)
    requires c.Valid() && theta < FULL_TURN && Kept(c, kind)
    requires SegmentOf(c, kind).start < theta < SegmentOf(c, kind).end
    ensures Stitched(c).Usable()
    ensures Stitched(c).all[Stitched(c).LocateIndex(theta)] == SegmentOf(c, kind)
  {
    hide StitchedList;
    StitchedUsable(c);
    ListInOrder(c);
    var b := Stitched(c);
    var k :| 0 <= k < |b.all| && b.all[k] == SegmentOf(c, kind);
    assert b.Hit(theta, false, k);
    forall j | 0 <= j < |b.all| && j != k
      ensures !b.Hit(theta, true, j) && !b.Hit(theta, false, j)
    {
      if j < k {
        EarlierEndsFirst(c, j, k);
      } else {
        EarlierEndsFirst(c, k, j);
      }
    }
    if IsDwell(kind) {
      assert b.Hit(theta, true, k);
    }
  }

  /** Every segment that ends within the turn and is longer than one grid step is tagged by some sample. */
  lemma LongSegmentIsTagged(c: Config, n: int, kind: Kind) returns (i: int)
    requires c.Valid() && 2 <= n && Kept(c, kind)
    requires SegmentOf(c, kind).end <= FULL_TURN
    requires FULL_TURN / (n - 1) as real < SegmentOf(c, kind).beta
    ensures 0 <= i < n && Stitched(c).Usable()
    ensures Stitched(c).all[Stitched(c).LocateIndex(GridAngle(n, i))] == SegmentOf(c, kind)
  {
    hide StitchedList, GridAngle, Segments.LocateIndex;
    var sg := SegmentOf(c, kind);
    i := NextGridPoint(n, sg.start);
    LocateInside(c, GridAngle(n, i), kind);
  }

  lemma GridTimes(n: int, i: int, m: real, g: real)
    requires 2 <= n && m == (n - 1) as real && g == GridAngle(n, i)
    ensures Prod(g, m) == 360.0 * i as real
  {
    DivMul(FULL_TURN * i as real, m);
  }

  lemma NextGridPoint(n: int, start: real) returns (i: int)
    requires 2 <= n && 0.0 <= start
    ensures 0 <= i && start < GridAngle(n, i) <= start + FULL_TURN / (n - 1) as real
    ensures GridAngle(n, i) < FULL_TURN ==> i < n
  {
    hide Prod, GridAngle;
    var m := (n - 1) as real;
    var p, q := Prod(start, m), FULL_TURN / m;
    ProdNonNeg(start, m);
    i := (p / 360.0).Floor + 1;
    var g := GridAngle(n, i);
    GridTimes(n, i, m, g);
    ProdSum(start, q, m);
    assert p < Prod(g, m) <= p + 360.0;
    ProdCancel(start, g, m);
    ProdCancel(g, start + q, m);
    ProdCancel(360.0, g, m);
  }

  lemma ProdSum(x: real, q: real, m: real)
    requires 0.0 < m && q == FULL_TURN / m
    ensures Prod(x + q, m) == Prod(x, m) + 360.0
    ensures Prod(360.0, m) == 360.0 * m
  {
    DivMul(FULL_TURN, m);
  }

  lemma ProdCancel(a: real, b: real, c: real)
    requires 0.0 < c
    ensures Prod(a, c) <= Prod(b, c) ==> a <= b
    ensures Prod(a, c) < Prod(b, c) ==> a < b
  {
    hide Prod;
    if b <= a {
      ProdMono(b, a, c);
    }
    if b < a {
      ProdPos(c, a - b);
      ProdLinear(c, a, b);
      ProdLinear(c, b, a);
    }
  }
}
