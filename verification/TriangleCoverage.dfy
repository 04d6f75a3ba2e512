/** Triangle coverage in the GS rasterizer: the clamped bounding-box scan with its
    three edge tests visits exactly the pixels of the triangle. */
module TriangleCoverage {

  datatype Point = Point(x: int, y: int)

  function Edge(a: Point, b: Point, p: Point): int {
    (b.x - a.x) * (p.y - a.y) - (b.y - a.y) * (p.x - a.x)
  }

  /** All three edge signs agree with the winding; nothing for a degenerate triangle. */
  predicate Inside(v0: Point, v1: Point, v2: Point, p: Point) {
    var area := Edge(v0, v1, v2);
    var w0, w1, w2 := Edge(v1, v2, p), Edge(v2, v0, p), Edge(v0, v1, p);
    (area > 0 && w0 >= 0 && w1 >= 0 && w2 >= 0) || (area < 0 && w0 <= 0 && w1 <= 0 && w2 <= 0)
  }

  datatype Scissor = Off | On(x0: nat, x1: nat, y0: nat, y1: nat) {
    predicate Allows(p: Point) { On? ==> x0 <= p.x <= x1 && y0 <= p.y <= y1 }
  }

  /** The pixels a triangle covers: inside, on screen, and inside the scissor area. */
  predicate Covered(v0: Point, v1: Point, v2: Point, s: Scissor, p: Point) {
    Inside(v0, v1, v2, p) && p.x >= 0 && p.y >= 0 && s.Allows(p)
  }

  function Min(a: int, b: int): int { if b < a then b else a }

  function Max(a: int, b: int): int { if b > a then b else a }

  // ---------------------------------------------------------------------------
  // Edge algebra
  // ---------------------------------------------------------------------------

  /** The three edge values add up to the area. */
  lemma EdgeSum(v0: Point, v1: Point, v2: Point, p: Point)
    ensures Edge(v1, v2, p) + Edge(v2, v0, p) + Edge(v0, v1, p) == Edge(v0, v1, v2)
  {}

  lemma EdgeSwap(a: Point, b: Point, p: Point)
    ensures Edge(b, a, p) == -Edge(a, b, p)
  {}

  lemma EdgeRotate(a: Point, b: Point, p: Point)
    ensures Edge(a, b, p) == Edge(b, p, a)
  {}

  /** p is the weighted mean of the vertices, its edge values being the weights. */
  lemma Barycentric(v0: Point, v1: Point, v2: Point, p: Point)
    ensures var w0, w1, w2 := Edge(v1, v2, p), Edge(v2, v0, p), Edge(v0, v1, p);
            && Edge(v0, v1, v2) * p.x == w0 * v0.x + w1 * v1.x + w2 * v2.x
            && Edge(v0, v1, v2) * p.y == w0 * v0.y + w1 * v1.y + w2 * v2.y
  {}

  // ---------------------------------------------------------------------------
  // Inside the bounding box, in any vertex order
  // ---------------------------------------------------------------------------

  lemma Scale(w: int, a: int, b: int)
    requires w >= 0 && a <= b
    ensures w * a <= w * b
  {}

  lemma Unscale(w: int, a: int, b: int)
    requires w > 0 && w * a <= w * b
    ensures a <= b
  {
    if a > b { Scale(w, b + 1, a); }
  }

  lemma Distribute(w0: int, w1: int, w2: int, m: int)
    ensures (w0 + w1 + w2) * m == w0 * m + w1 * m + w2 * m
  {}

  /** A weighted mean with non-negative weights lies within the bounds of its terms. */
  lemma MeanInRange(w0: int, w1: int, w2: int, a0: int, a1: int, a2: int, m: int, lo: int, hi: int)
    requires w0 >= 0 && w1 >= 0 && w2 >= 0 && w0 + w1 + w2 > 0
    requires lo <= a0 <= hi && lo <= a1 <= hi && lo <= a2 <= hi
    requires (w0 + w1 + w2) * m == w0 * a0 + w1 * a1 + w2 * a2
    ensures lo <= m <= hi
  {
    var w := w0 + w1 + w2;
    assert w * lo <= w * m by {
      Distribute(w0, w1, w2, lo);
      Scale(w0, lo, a0); Scale(w1, lo, a1); Scale(w2, lo, a2);
    }
    assert w * m <= w * hi by {
      Distribute(w0, w1, w2, hi);
      Scale(w0, a0, hi); Scale(w1, a1, hi); Scale(w2, a2, hi);
    }
    Unscale(w, lo, m);
    Unscale(w, m, hi);
  }

  ghost predicate InBox(p: Point, lo: Point, hi: Point) { lo.x <= p.x <= hi.x && lo.y <= p.y <= hi.y }

  /** A point that passes the three edge tests lies in the box of the vertices. */
  lemma InsideInBox(v0: Point, v1: Point, v2: Point, p: Point, lo: Point, hi: Point)
    requires Inside(v0, v1, v2, p)
    requires InBox(v0, lo, hi) && InBox(v1, lo, hi) && InBox(v2, lo, hi)
    ensures InBox(p, lo, hi)
  {
    InsideIsMean(v0, v1, v2, p);
    var a: nat, b: nat, c: nat :| Weighs(v0, v1, v2, a, b, c, p);
    MeanInRange(a, b, c, v0.x, v1.x, v2.x, p.x, lo.x, hi.x);
    MeanInRange(a, b, c, v0.y, v1.y, v2.y, p.y, lo.y, hi.y);
  }

  lemma NegatedMean(w0: int, w1: int, w2: int, a0: int, a1: int, a2: int, m: int)
    requires (w0 + w1 + w2) * m == w0 * a0 + w1 * a1 + w2 * a2
    ensures (-w0 + -w1 + -w2) * m == -w0 * a0 + -w1 * a1 + -w2 * a2
  {}

  /** Coverage does not depend on the order of the vertices. */
  lemma InsideAnyOrder(v0: Point, v1: Point, v2: Point, p: Point)
    ensures Inside(v0, v1, v2, p) == Inside(v1, v2, v0, p) == Inside(v2, v0, v1, p)
    ensures Inside(v0, v1, v2, p) == Inside(v1, v0, v2, p) == Inside(v0, v2, v1, p) == Inside(v2, v1, v0, p)
  {
    EdgeRotate(v0, v1, v2);
    EdgeRotate(v1, v2, v0);
    InsideSwapped(v0, v1, v2, p);
    InsideSwapped(v1, v2, v0, p);
    InsideSwapped(v2, v0, v1, p);
  }

  lemma InsideSwapped(v0: Point, v1: Point, v2: Point, p: Point)
    ensures Inside(v1, v0, v2, p) == Inside(v0, v1, v2, p)
  {
    EdgeSwap(v0, v1, v2);
    EdgeSwap(v1, v2, p);
    EdgeSwap(v2, v0, p);
    EdgeSwap(v0, v1, p);
  }

  // ---------------------------------------------------------------------------
  // The closed triangle
  // ---------------------------------------------------------------------------

  /** p is the mean of the vertices with weights a, b and c. */
  predicate Weighs(v0: Point, v1: Point, v2: Point, a: nat, b: nat, c: nat, p: Point) {
    && a + b + c > 0
    && (a + b + c) * p.x == a * v0.x + b * v1.x + c * v2.x
    && (a + b + c) * p.y == a * v0.y + b * v1.y + c * v2.y
  }

  /** p is a mean of the vertices: it lies in the triangle, on one of its edges or at a vertex. */
  ghost predicate Mean(v0: Point, v1: Point, v2: Point, p: Point) {
    exists a: nat, b: nat, c: nat :: Weighs(v0, v1, v2, a, b, c, p)
  }

  /** The edge values of a point are its weights, up to sign. */
  lemma InsideIsMean(v0: Point, v1: Point, v2: Point, p: Point)
    requires Inside(v0, v1, v2, p)
    ensures Mean(v0, v1, v2, p)
  {
    EdgeSum(v0, v1, v2, p);
    Barycentric(v0, v1, v2, p);
    EdgesWeigh(v0, v1, v2, Edge(v1, v2, p), Edge(v2, v0, p), Edge(v0, v1, p), p);
  }

  lemma EdgesWeigh(v0: Point, v1: Point, v2: Point, w0: int, w1: int, w2: int, p: Point)
    requires w0 + w1 + w2 != 0 && ((w0 >= 0 && w1 >= 0 && w2 >= 0) || (w0 <= 0 && w1 <= 0 && w2 <= 0))
    requires (w0 + w1 + w2) * p.x == w0 * v0.x + w1 * v1.x + w2 * v2.x
    requires (w0 + w1 + w2) * p.y == w0 * v0.y + w1 * v1.y + w2 * v2.y
    ensures Mean(v0, v1, v2, p)
  {
    if w0 + w1 + w2 > 0 {
      assert Weighs(v0, v1, v2, w0, w1, w2, p);
    } else {
      NegatedMean(w0, w1, w2, v0.x, v1.x, v2.x, p.x);
      NegatedMean(w0, w1, w2, v0.y, v1.y, v2.y, p.y);
      assert Weighs(v0, v1, v2, -w0, -w1, -w2, p);
    }
  }

  /** An edge value is linear, so that of a mean is the mean of those of the vertices. */
  lemma EdgeOfMean(u: Point, v: Point, v0: Point, v1: Point, v2: Point, a: nat, b: nat, c: nat, p: Point)
    requires Weighs(v0, v1, v2, a, b, c, p)
    ensures (a + b + c) * Edge(u, v, p) == a * Edge(u, v, v0) + b * Edge(u, v, v1) + c * Edge(u, v, v2)
  {
    var n, dx, dy := a + b + c, v.x - u.x, v.y - u.y;
    MeanShift(a, b, c, v0.y, v1.y, v2.y, p.y, u.y);
    MeanShift(a, b, c, v0.x, v1.x, v2.x, p.x, u.x);
    MeanScale(a, b, c, v0.y - u.y, v1.y - u.y, v2.y - u.y, p.y - u.y, dx);
    MeanScale(a, b, c, v0.x - u.x, v1.x - u.x, v2.x - u.x, p.x - u.x, dy);
    MeanLess(a, b, c, dx * (v0.y - u.y), dx * (v1.y - u.y), dx * (v2.y - u.y), dx * (p.y - u.y),
      dy * (v0.x - u.x), dy * (v1.x - u.x), dy * (v2.x - u.x), dy * (p.x - u.x));
  }

  lemma MeanShift(a: int, b: int, c: int, x: int, y: int, z: int, m: int, d: int)
    requires (a + b + c) * m == a * x + b * y + c * z
    ensures (a + b + c) * (m - d) == a * (x - d) + b * (y - d) + c * (z - d)
  {}

  lemma MeanScale(a: int, b: int, c: int, x: int, y: int, z: int, m: int, k: int)
    requires (a + b + c) * m == a * x + b * y + c * z
    ensures (a + b + c) * (k * m) == a * (k * x) + b * (k * y) + c * (k * z)
  {
    assert k * ((a + b + c) * m) == (a + b + c) * (k * m);
    assert k * (a * x) == a * (k * x) && k * (b * y) == b * (k * y) && k * (c * z) == c * (k * z);
  }

  lemma MeanLess(a: int, b: int, c: int, x: int, y: int, z: int, m: int, x': int, y': int, z': int, m': int)
    requires (a + b + c) * m == a * x + b * y + c * z && (a + b + c) * m' == a * x' + b * y' + c * z'
    ensures (a + b + c) * (m - m') == a * (x - x') + b * (y - y') + c * (z - z')
  {}

  /** The sign of a weighted area. */
  lemma SameSign(n: int, w: int, a: int, area: int)
    requires n > 0 && a >= 0 && n * w == a * area
    ensures area > 0 ==> w >= 0
    ensures area < 0 ==> w <= 0
  {
    if area > 0 { Unscale(n, 0, w) by { Scale(area, 0, a); } }
    if area < 0 { Unscale(n, w, 0) by { Scale(-area, 0, a); } }
  }

  lemma EdgeEnds(a: Point, b: Point)
    ensures Edge(a, b, a) == 0 && Edge(a, b, b) == 0
  {}

  lemma MeanIsInside(v0: Point, v1: Point, v2: Point, a: nat, b: nat, c: nat, p: Point)
    requires Weighs(v0, v1, v2, a, b, c, p) && Edge(v0, v1, v2) != 0
    ensures Inside(v0, v1, v2, p)
  {
    var n, area := a + b + c, Edge(v0, v1, v2);
    EdgeEnds(v1, v2);
    EdgeEnds(v2, v0);
    EdgeEnds(v0, v1);
    EdgeRotate(v0, v1, v2);
    EdgeRotate(v1, v2, v0);
    EdgeOfMean(v1, v2, v0, v1, v2, a, b, c, p);
    EdgeOfMean(v2, v0, v0, v1, v2, a, b, c, p);
    EdgeOfMean(v0, v1, v0, v1, v2, a, b, c, p);
    SameSign(n, Edge(v1, v2, p), a, area);
    SameSign(n, Edge(v2, v0, p), b, area);
    SameSign(n, Edge(v0, v1, p), c, area);
  }

  /** The edge tests pass exactly the points of the closed triangle, and none if its vertices lie on
      one line. */
  lemma InsideIffMean(v0: Point, v1: Point, v2: Point, p: Point)
    ensures Inside(v0, v1, v2, p) <==> Edge(v0, v1, v2) != 0 && Mean(v0, v1, v2, p)
  {
    if Inside(v0, v1, v2, p) {
      InsideIsMean(v0, v1, v2, p);
    } else if Edge(v0, v1, v2) != 0 && Mean(v0, v1, v2, p) {
      var a: nat, b: nat, c: nat :| Weighs(v0, v1, v2, a, b, c, p);
      MeanIsInside(v0, v1, v2, a, b, c, p);
    }
  }

  /** Each vertex and each lattice point of an edge belongs to it. */
  lemma EdgesDrawn(v0: Point, v1: Point, v2: Point, i: nat, k: nat, p: Point)
    requires i <= k && k > 0 && k * p.x == i * v0.x + (k - i) * v1.x && k * p.y == i * v0.y + (k - i) * v1.y
    ensures Mean(v0, v1, v2, p) && Mean(v1, v2, v0, p) && Mean(v2, v0, v1, p)
  {
    assert Weighs(v0, v1, v2, i, k - i, 0, p);
    assert Weighs(v1, v2, v0, k - i, 0, i, p);
    assert Weighs(v2, v0, v1, 0, i, k - i, p);
  }

  // ---------------------------------------------------------------------------
  // 32-bit arithmetic
  // ---------------------------------------------------------------------------

  /** The vertex kick: 12.4 fixed point less the 12.4 offset, shifted down arithmetically. */
  function Coordinate(raw: nat, offset: nat): (c: int)
    requires raw < 0x10000 && offset < 0x10000
    ensures -0x1000 <= c < 0x1000
    ensures 16 * c <= raw - offset < 16 * c + 16
  {
    (raw - offset) / 16
  }

  predicate Fits32(n: int) { -0x8000_0000 <= n < 0x8000_0000 }

  predicate OnGrid(p: Point) { -0x1000 <= p.x < 0x1000 && -0x1000 <= p.y < 0x1000 }

  /** A vertex as the kick makes it from the two 16-bit fields and the drawing offset. */
  function Kicked(x: nat, y: nat, offset: Offset): (p: Point)
    requires x < 0x10000 && y < 0x10000
    ensures OnGrid(p)
    ensures 16 * p.x <= x - offset.x < 16 * p.x + 16 && 16 * p.y <= y - offset.y < 16 * p.y + 16
  {
    Point(Coordinate(x, offset.x), Coordinate(y, offset.y))
  }

  type Field = n: nat | n < 0x10000

  /** The XYOFFSET register. */
  datatype Offset = Offset(x: Field, y: Field)

  lemma ProductBound(a: int, b: int, m: int)
    requires -m <= a <= m && -m <= b <= m
    ensures -(m * m) <= a * b <= m * m
  {
    Scale(m + a, -m, b);
    Scale(m + a, b, m);
    Scale(m - a, -m, b);
    Scale(m - a, b, m);
    assert (m + a) * (m + b) >= 0 && (m - a) * (m - b) >= 0 && (m + a) * (m - b) >= 0 && (m - a) * (m + b) >= 0;
  }

  /** No step of an edge value overflows for coordinates the kick can produce. */
  lemma EdgeFits(a: Point, b: Point, p: Point)
    requires OnGrid(a) && OnGrid(b) && OnGrid(p)
    ensures Fits32((b.x - a.x) * (p.y - a.y)) && Fits32((b.y - a.y) * (p.x - a.x)) && Fits32(Edge(a, b, p))
  {
    ProductBound(b.x - a.x, p.y - a.y, 0x1FFF);
    ProductBound(b.y - a.y, p.x - a.x, 0x1FFF);
  }

  // ---------------------------------------------------------------------------
  // The scan
  // ---------------------------------------------------------------------------

  ghost predicate Earlier(p: Point, q: Point) { p.y < q.y || (p.y == q.y && p.x < q.x) }

  ghost predicate InOrder(ps: seq<Point>) { forall i, j | 0 <= i < j < |ps| :: Earlier(ps[i], ps[j]) }

  /** The box of the vertices, clamped to the screen and to the scissor area. */
  function Box(v0: Point, v1: Point, v2: Point, s: Scissor): (Point, Point) {
    var minx, maxx := Min(Min(v0.x, v1.x), v2.x), Max(Max(v0.x, v1.x), v2.x);
    var miny, maxy := Min(Min(v0.y, v1.y), v2.y), Max(Max(v0.y, v1.y), v2.y);
    if s.Off? then (Point(Max(minx, 0), Max(miny, 0)), Point(maxx, maxy))
    else (Point(Max(Max(minx, 0), s.x0), Max(Max(miny, 0), s.y0)), Point(Min(maxx, s.x1), Min(maxy, s.y1)))
  }

  lemma CoveredInBox(v0: Point, v1: Point, v2: Point, s: Scissor, p: Point)
    requires Covered(v0, v1, v2, s, p)
    ensures var (lo, hi) := Box(v0, v1, v2, s); InBox(p, lo, hi)
  {
    InsideInBox(v0, v1, v2, p,
      Point(Min(Min(v0.x, v1.x), v2.x), Min(Min(v0.y, v1.y), v2.y)),
      Point(Max(Max(v0.x, v1.x), v2.x), Max(Max(v0.y, v1.y), v2.y)));
  }

  /** Every point the scan visits is on the grid, so none of its edge values overflows. */
  lemma ScanFits(v0: Point, v1: Point, v2: Point, s: Scissor, p: Point)
    requires OnGrid(v0) && OnGrid(v1) && OnGrid(v2)
    requires var (lo, hi) := Box(v0, v1, v2, s); InBox(p, lo, hi)
    ensures Fits32(Edge(v0, v1, v2)) && Fits32(Edge(v1, v2, p)) && Fits32(Edge(v2, v0, p)) && Fits32(Edge(v0, v1, p))
  {
    EdgeFits(v0, v1, v2);
    EdgeFits(v1, v2, p);
    EdgeFits(v2, v0, p);
    EdgeFits(v0, v1, p);
  }

  /** So no triangle that vertex kicks can produce makes the scan leave 32 bits, whatever the fields
      and the offset in force at each kick. */
  lemma KickedScanFits(x: seq<Field>, y: seq<Field>, o: seq<Offset>, s: Scissor, p: Point)
    requires |x| == 3 && |y| == 3 && |o| == 3
    requires var (lo, hi) := Box(Kicked(x[0], y[0], o[0]), Kicked(x[1], y[1], o[1]), Kicked(x[2], y[2], o[2]), s);
             InBox(p, lo, hi)
    ensures var v0, v1, v2 := Kicked(x[0], y[0], o[0]), Kicked(x[1], y[1], o[1]), Kicked(x[2], y[2], o[2]);
            Fits32(Edge(v0, v1, v2)) && Fits32(Edge(v1, v2, p)) && Fits32(Edge(v2, v0, p)) && Fits32(Edge(v0, v1, p))
  {
    ScanFits(Kicked(x[0], y[0], o[0]), Kicked(x[1], y[1], o[1]), Kicked(x[2], y[2], o[2]), s, p);
  }

  /** The pixels of a triangle whose vertices do not lie on one line: its means that are on screen and
      in the scissor area, bounds included. */
  ghost predicate Drawn(v0: Point, v1: Point, v2: Point, s: Scissor, p: Point) {
    && (v1.x - v0.x) * (v2.y - v0.y) != (v1.y - v0.y) * (v2.x - v0.x)
    && Mean(v0, v1, v2, p)
    && p.x >= 0 && p.y >= 0 && (s.On? ==> s.x0 <= p.x <= s.x1 && s.y0 <= p.y <= s.y1)
  }

  /** The coverage part of rasterize_triangle: every pixel of the triangle once, in raster order. */
  method Rasterize(v0: Point, v1: Point, v2: Point, s: Scissor) returns (pixels: seq<Point>)
    ensures forall p :: p in pixels <==> Drawn(v0, v1, v2, s, p)
    ensures InOrder(pixels)
  {
    pixels := Scan(v0, v1, v2, s);
    forall p ensures p in pixels <==> Drawn(v0, v1, v2, s, p) { InsideIffMean(v0, v1, v2, p); }
  }

  /** The scan with its edge tests. */
  method Scan(v0: Point, v1: Point, v2: Point, s: Scissor) returns (pixels: seq<Point>)
    ensures forall p :: p in pixels <==> Covered(v0, v1, v2, s, p)
    ensures InOrder(pixels)
  {
    var (lo, hi) := Box(v0, v1, v2, s);
    var area := Edge(v0, v1, v2);
    pixels := [];
    if area == 0 { return; }
    var y := lo.y;
    while y <= hi.y
      invariant lo.y <= y
      invariant forall p :: p in pixels <==> Covered(v0, v1, v2, s, p) && InBox(p, lo, hi) && p.y < y
      invariant InOrder(pixels)
    {
      var x := lo.x;
      while x <= hi.x
        invariant lo.x <= x
        invariant forall p :: p in pixels <==>
                    Covered(v0, v1, v2, s, p) && InBox(p, lo, hi) && Earlier(p, Point(x, y))
        invariant InOrder(pixels)
      {
        var p := Point(x, y);
        var w0, w1, w2 := Edge(v1, v2, p), Edge(v2, v0, p), Edge(v0, v1, p);
        if (area > 0 && w0 >= 0 && w1 >= 0 && w2 >= 0) || (area < 0 && w0 <= 0 && w1 <= 0 && w2 <= 0) {
          pixels := Append(pixels, p);
        }
        x := x + 1;
      }
      y := y + 1;
    }
    forall p | Covered(v0, v1, v2, s, p) ensures InBox(p, lo, hi) { CoveredInBox(v0, v1, v2, s, p); }
  }

  function Append(ps: seq<Point>, p: Point): (r: seq<Point>)
    requires InOrder(ps) && forall q | q in ps :: Earlier(q, p)
    ensures InOrder(r) && forall q :: q in r <==> q in ps || q == p
  {
    ps + [p]
  }
}
