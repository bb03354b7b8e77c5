/** Distances without square roots, the triangle inequality, and a pigeonhole for spaced points. */
module Geometry {
  import opened GameTypes

  datatype Position = Position(x: real, y: real)

  predicate Near(a: Position, b: Position, r: real) {
    Within(a.x, a.y, b.x, b.y, r)
  }

  predicate TooClose(a: Position, b: Position, r: real) {
    Closer(a.x, a.y, b.x, b.y, r)
  }

  lemma SquareOrder(a: real, b: real)
    requires 0.0 <= a && 0.0 <= b
    ensures a * a <= b * b <==> a <= b
  {
    if a < b {
      SquareLess(a, b);
    } else if b < a {
      SquareLess(b, a);
    }
  }

  lemma SquareLess(a: real, b: real)
    requires 0.0 <= a < b
    ensures a * a < b * b
  {
    var d := b - a;
    assert b * b == a * a + 2.0 * (a * d) + d * d;
    assert 0.0 <= a * d && 0.0 < d * d;
  }

  /** d is the Euclidean distance of the two points. */
  ghost predicate IsDistance(a: Position, b: Position, d: real) {
    0.0 <= d && d * d == (a.x - b.x) * (a.x - b.x) + (a.y - b.y) * (a.y - b.y)
  }

  /** For the distance d between the points, comparing squares is comparing distances. */
  lemma WithinIsDistance(a: Position, b: Position, d: real, r: real)
    requires IsDistance(a, b, d) && 0.0 <= r
    ensures Near(a, b, r) <==> d <= r
    ensures TooClose(a, b, r) <==> d < r
  {
    SquareOrder(d, r);
    SquareOrder(r, d);
  }

  lemma DotBound(u1: real, u2: real, v1: real, v2: real, r: real, s: real)
    requires 0.0 <= r && 0.0 <= s
    requires u1 * u1 + u2 * u2 <= r * r && v1 * v1 + v2 * v2 <= s * s
    ensures u1 * v1 + u2 * v2 <= r * s
  {
    var dot, uu, vv, cross := u1 * v1 + u2 * v2, u1 * u1 + u2 * u2, v1 * v1 + v2 * v2, u1 * v2 - u2 * v1;
    assert dot * dot + cross * cross == uu * vv;
    assert uu * vv <= (r * r) * (s * s) by {
      Product(uu, r * r, vv, s * s);
    }
    assert (r * r) * (s * s) == (r * s) * (r * s);
    assert 0.0 <= cross * cross;
    assert 0.0 <= r * s;
    if 0.0 <= dot {
      SquareOrder(dot, r * s);
    }
  }

  lemma Product(a: real, b: real, c: real, d: real)
    requires 0.0 <= a <= b && 0.0 <= c <= d
    ensures a * c <= b * d
  {
    assert a * c <= b * c;
    assert b * c <= b * d;
  }

  lemma Triangle(a: Position, b: Position, c: Position, r: real, s: real)
    requires 0.0 <= r && 0.0 <= s && Near(a, b, r) && Near(b, c, s)
    ensures Near(a, c, r + s)
  {
    var u1, u2, v1, v2 := a.x - b.x, a.y - b.y, b.x - c.x, b.y - c.y;
    NormOfSum(u1, u2, v1, v2, r, s);
    NearBySteps(a, c, u1 + v1, u2 + v2, r + s);
  }

  lemma NearBySteps(a: Position, c: Position, dx: real, dy: real, r: real)
    requires a.x - c.x == dx && a.y - c.y == dy && dx * dx + dy * dy <= r * r
    ensures Near(a, c, r)
  {
  }

  lemma NormOfSum(u1: real, u2: real, v1: real, v2: real, r: real, s: real)
    requires 0.0 <= r && 0.0 <= s
    requires u1 * u1 + u2 * u2 <= r * r && v1 * v1 + v2 * v2 <= s * s
    ensures (u1 + v1) * (u1 + v1) + (u2 + v2) * (u2 + v2) <= (r + s) * (r + s)
  {
    DotBound(u1, u2, v1, v2, r, s);
    SquareOfSum(u1, v1);
    SquareOfSum(u2, v2);
    SquareOfSum(r, s);
  }

  lemma SquareOfSum(a: real, b: real)
    ensures (a + b) * (a + b) == a * a + b * b + 2.0 * (a * b)
  {
  }

  lemma Widen(a: Position, b: Position, r: real, s: real)
    requires 0.0 <= r <= s && Near(a, b, r)
    ensures Near(a, b, s)
  {
    SquareOrder(r, s);
  }

  // ----- Pigeonhole -----

  /** p keeps the distance r from every point of the list. */
  predicate FarFrom(p: Position, placed: seq<Position>, r: real) {
    forall q :: q in placed ==> !TooClose(p, q, r)
  }

  /** The points keep the distance d from each other. */
  ghost predicate Spaced(points: seq<Position>, d: real) {
    forall i, j :: 0 <= i < j < |points| ==> !TooClose(points[i], points[j], d)
  }

  /** A disc of radius r cannot hold two points 2r apart. */
  lemma DiscHoldsOne(a: Position, b: Position, c: Position, r: real)
    requires TooClose(a, c, r) && TooClose(b, c, r)
    ensures TooClose(a, b, 2.0 * r)
  {
    var u1, u2, v1, v2 := a.x - c.x, a.y - c.y, c.x - b.x, c.y - b.y;
    assert v1 * v1 == (b.x - c.x) * (b.x - c.x) && v2 * v2 == (b.y - c.y) * (b.y - c.y);
    NormOfShortSum(u1, u2, v1, v2, r);
    assert a.x - b.x == u1 + v1 && a.y - b.y == u2 + v2;
  }

  lemma NormOfShortSum(u1: real, u2: real, v1: real, v2: real, r: real)
    requires u1 * u1 + u2 * u2 < r * r && v1 * v1 + v2 * v2 < r * r
    ensures (u1 + v1) * (u1 + v1) + (u2 + v2) * (u2 + v2) < (2.0 * r) * (2.0 * r)
  {
    SquareOfSum(u1, v1);
    SquareOfSum(u2, v2);
    ProductBelowSquares(u1, v1);
    ProductBelowSquares(u2, v2);
    assert (2.0 * r) * (2.0 * r) == 4.0 * (r * r);
  }

  lemma ProductBelowSquares(a: real, b: real)
    ensures 2.0 * (a * b) <= a * a + b * b
  {
    assert (a - b) * (a - b) == a * a + b * b - 2.0 * (a * b);
    assert 0.0 <= (a - b) * (a - b);
  }

  /**
   Among more points than there are placed ones, all 2r apart from each other, one keeps the distance
   r from everything placed: each placed point rules out at most one of them.
   */
  lemma {:induction false} OneIsFree(points: seq<Position>, placed: seq<Position>, r: real)
    requires |placed| < |points| && Spaced(points, 2.0 * r)
    ensures exists i :: 0 <= i < |points| && FarFrom(points[i], placed, r)
    decreases |placed|
  {
    hide TooClose;
    if placed == [] {
      assert FarFrom(points[0], placed, r);
    } else {
      var front, last := placed[..|placed| - 1], placed[|placed| - 1];
      var h := if exists i :: 0 <= i < |points| && TooClose(points[i], last, r)
               then var i :| 0 <= i < |points| && TooClose(points[i], last, r); i
               else 0;
      var rest := points[..h] + points[h + 1..];
      OneIsFree(rest, front, r);
      var k :| 0 <= k < |rest| && FarFrom(rest[k], front, r);
      var i := if k < h then k else k + 1;
      assert points[i] == rest[k];
      if TooClose(points[i], last, r) {
        DiscHoldsOne(points[h], points[i], last, r);
        DiscHoldsOne(points[i], points[h], last, r);
        assert false;
      }
      assert placed == front + [last];
      assert FarFrom(points[i], placed, r);
    }
  }

  // ----- Grids -----

  function Row(xs: seq<real>, y: real): (row: seq<Position>)
    ensures |row| == |xs|
  {
    seq(|xs|, i requires 0 <= i < |xs| => Position(xs[i], y))
  }

  function Grid(xs: seq<real>, ys: seq<real>): (grid: seq<Position>)
    ensures |grid| == |xs| * |ys|
  {
    if ys == [] then []
    else
      var lower := Grid(xs, ys[..|ys| - 1]);
      assert |xs| * |ys| == |xs| * (|ys| - 1) + |xs|;
      lower + Row(xs, ys[|ys| - 1])
  }

  ghost predicate Steps(s: seq<real>, d: real) {
    forall i, j :: 0 <= i < j < |s| ==> s[i] + d <= s[j]
  }

  lemma ApartInX(a: Position, b: Position, d: real)
    requires 0.0 < d && (a.x + d <= b.x || b.x + d <= a.x)
    ensures !TooClose(a, b, d)
  {
    var e := if a.x < b.x then b.x - a.x else a.x - b.x;
    Product(d, e, d, e);
    assert (a.x - b.x) * (a.x - b.x) == e * e && 0.0 <= (a.y - b.y) * (a.y - b.y);
  }

  lemma ApartInY(a: Position, b: Position, d: real)
    requires 0.0 < d && (a.y + d <= b.y || b.y + d <= a.y)
    ensures !TooClose(a, b, d)
  {
    var e := if a.y < b.y then b.y - a.y else a.y - b.y;
    Product(d, e, d, e);
    assert (a.y - b.y) * (a.y - b.y) == e * e && 0.0 <= (a.x - b.x) * (a.x - b.x);
  }

  lemma {:induction false} GridMembers(xs: seq<real>, ys: seq<real>)
    ensures forall p :: p in Grid(xs, ys) ==> p.x in xs && p.y in ys
  {
    if ys != [] {
      GridMembers(xs, ys[..|ys| - 1]);
    }
  }

  /** A grid whose columns and rows are at least d apart is spaced by d. */
  lemma {:induction false} GridSpaced(xs: seq<real>, ys: seq<real>, d: real)
    requires 0.0 < d && Steps(xs, d) && Steps(ys, d)
    ensures Spaced(Grid(xs, ys), d)
  {
    hide TooClose;
    if ys != [] {
      var front, top := ys[..|ys| - 1], ys[|ys| - 1];
      GridSpaced(xs, front, d);
      GridMembers(xs, front);
      var lower, row := Grid(xs, front), Row(xs, top);
      forall i, j | 0 <= i < |lower| && 0 <= j < |row|
        ensures !TooClose(lower[i], row[j], d)
      {
        assert lower[i] in lower;
        var k :| 0 <= k < |front| && front[k] == lower[i].y;
        assert ys[k] + d <= ys[|ys| - 1];
        ApartInY(lower[i], row[j], d);
      }
      forall i, j | 0 <= i < j < |row|
        ensures !TooClose(row[i], row[j], d)
      {
        ApartInX(row[i], row[j], d);
      }
      assert Grid(xs, ys) == lower + row;
    }
  }
}
