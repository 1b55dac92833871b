/** The integer triangle setup of rdp_emit.c: sorting by screen y, the signed area, and the attribute
    plane. Coordinates and attributes are s15.16; the RSP stores vertices on the quarter-pixel grid. */
module PlaneSolver {

  /** C's division: truncation toward zero. */
  function Trunc(num: int, den: int): int
    requires den != 0
  {
    if (num >= 0) == (den > 0) then Abs(num) / Abs(den) else -(Abs(num) / Abs(den))
  }

  function Abs(x: int): nat {
    if x >= 0 then x else -x
  }

  /** x >> 8 and x >> 16 of signed values. */
  function Shr8(x: int): int { x / 0x100 }
  function Shr16(x: int): int { x / 0x1_0000 }

  /** int32_t of a wider value. */
  function Int32(x: int): (r: int)
    ensures -0x8000_0000 <= r < 0x8000_0000
  {
    (x + 0x8000_0000) % 0x1_0000_0000 - 0x8000_0000
  }

  predicate InInt32(x: int) {
    -0x8000_0000 <= x < 0x8000_0000
  }

  function IDivFix(num: int, den: int): int {
    if den == 0 then 0 else Int32(Trunc(num, den))
  }

  datatype Vertex = Vertex(x: int, y: int)

  /** The area emit_edges hands on, of vertices in sorted order. */
  function Area(v0: Vertex, v1: Vertex, v2: Vertex): int {
    Shr16(Cross(v0, v1, v2))
  }

  function Cross(v0: Vertex, v1: Vertex, v2: Vertex): int {
    (v1.x - v0.x) * (v2.y - v0.y) - (v2.x - v0.x) * (v1.y - v0.y)
  }

  datatype Slopes = Slopes(dx: int, dy: int, de: int)

  /** The numerators of solve_plane. */
  function NumX(a0: int, a1: int, a2: int, v0: Vertex, v1: Vertex, v2: Vertex): int {
    (a1 - a0) * Shr8(v2.y - v0.y) - (a2 - a0) * Shr8(v1.y - v0.y)
  }

  function NumY(a0: int, a1: int, a2: int, v0: Vertex, v1: Vertex, v2: Vertex): int {
    (a2 - a0) * Shr8(v1.x - v0.x) - (a1 - a0) * Shr8(v2.x - v0.x)
  }

  function SolvePlane(a0: int, a1: int, a2: int, v0: Vertex, v1: Vertex, v2: Vertex, area: int, dxhdy: int): Slopes {
    var ddx := IDivFix(NumX(a0, a1, a2, v0, v1, v2) * 0x100, area);
    var ddy := IDivFix(NumY(a0, a1, a2, v0, v1, v2) * 0x100, area);
    Slopes(ddx, ddy, Int32(ddy + Int32(Shr16(dxhdy * ddx))))
  }

  // ---------------------------------------------------------------- exactness

  /** S13.2 storage: quarter pixels in s15.16. */
  predicate OnGrid(v: Vertex) {
    v.x % 0x4000 == 0 && v.y % 0x4000 == 0
  }

  lemma GridDifference(a: int, b: int)
    requires a % 0x4000 == 0 && b % 0x4000 == 0
    ensures (a - b) % 0x4000 == 0 && Shr8(a - b) * 0x100 == a - b
  {
    var p, q := a / 0x4000, b / 0x4000;
    assert a == 0x4000 * p && b == 0x4000 * q;
    hide Shr8;
    GridMultiple(p - q);
    assert 0x4000 * (p - q) == a - b;
  }

  lemma GridMultiple(k: int)
    ensures (0x4000 * k) % 0x4000 == 0 && Shr8(0x4000 * k) * 0x100 == 0x4000 * k
  {
  }

  lemma GridProduct(a: int, b: int)
    requires a % 0x4000 == 0 && b % 0x4000 == 0
    ensures a * b == a / 0x4000 * (b / 0x4000) * 0x1000_0000
  {
    var p, q := a / 0x4000, b / 0x4000;
    assert a == 0x4000 * p && b == 0x4000 * q;
    assert a * b == (0x4000 * p) * (0x4000 * q);
  }

  /** The shift in the area loses nothing on the grid. */
  lemma AreaExact(v0: Vertex, v1: Vertex, v2: Vertex)
    requires OnGrid(v0) && OnGrid(v1) && OnGrid(v2)
    ensures Area(v0, v1, v2) * 0x1_0000 == Cross(v0, v1, v2)
  {
    GridDifference(v1.x, v0.x);
    GridDifference(v2.y, v0.y);
    GridDifference(v2.x, v0.x);
    GridDifference(v1.y, v0.y);
    hide Shr8, Shr16;
    GridProduct(v1.x - v0.x, v2.y - v0.y);
    GridProduct(v2.x - v0.x, v1.y - v0.y);
    var k1, k2 := (v1.x - v0.x) / 0x4000 * ((v2.y - v0.y) / 0x4000), (v2.x - v0.x) / 0x4000 * ((v1.y - v0.y) / 0x4000);
    assert Cross(v0, v1, v2) == k1 * 0x1000_0000 - k2 * 0x1000_0000;
    ShiftExact(k1 - k2);
  }

  lemma ShiftExact(k: int)
    ensures Shr16(k * 0x1000_0000) * 0x1_0000 == k * 0x1000_0000
  {
    assert k * 0x1000_0000 == k * 0x1000 * 0x1_0000;
  }

  /** The exact numerators: the shifts by 8 lose nothing either. */
  lemma NumeratorsExact(a0: int, a1: int, a2: int, v0: Vertex, v1: Vertex, v2: Vertex)
    requires OnGrid(v0) && OnGrid(v1) && OnGrid(v2)
    ensures NumX(a0, a1, a2, v0, v1, v2) * 0x100 == (a1 - a0) * (v2.y - v0.y) - (a2 - a0) * (v1.y - v0.y)
    ensures NumY(a0, a1, a2, v0, v1, v2) * 0x100 == (a2 - a0) * (v1.x - v0.x) - (a1 - a0) * (v2.x - v0.x)
  {
    GridDifference(v1.x, v0.x);
    GridDifference(v2.y, v0.y);
    GridDifference(v2.x, v0.x);
    GridDifference(v1.y, v0.y);
    hide Shr8;
    Scale(a1 - a0, Shr8(v2.y - v0.y));
    Scale(a2 - a0, Shr8(v1.y - v0.y));
    Scale(a2 - a0, Shr8(v1.x - v0.x));
    Scale(a1 - a0, Shr8(v2.x - v0.x));
  }

  lemma Scale(a: int, b: int)
    ensures a * b * 0x100 == a * (b * 0x100)
  {
  }

  // ---------------------------------------------------------------- truncated division

  lemma DivOfMultiple(a: nat, d: nat)
    requires d > 0
    ensures a * d / d == a
  {
    var q, r := a * d / d, a * d % d;
    assert a * d == d * q + r;
    assert d * (a - q) == a * d - d * q && d * (q - a) == d * q - a * d;
    if a - q >= 1 { Grows(d, a - q); }
    if q - a >= 1 { Grows(d, q - a); }
  }

  lemma Grows(d: nat, k: nat)
    requires k >= 1
    ensures d * k >= d
  {
  }

  lemma TruncExact(p: int, d: int)
    requires d != 0
    ensures Trunc(p * d, d) == p
  {
    DivOfMultiple(Abs(p), Abs(d));
    AbsProduct(p, d);
  }

  lemma AbsProduct(p: int, d: int)
    requires d != 0
    ensures Abs(p * d) == Abs(p) * Abs(d)
    ensures p != 0 ==> ((p * d >= 0) == (d > 0)) == (p > 0)
  {
    if p > 0 && d > 0 { Positive(p, d); }
    if p > 0 && d < 0 { Positive(p, -d); assert p * d == -(p * (-d)); }
    if p < 0 && d > 0 { Positive(-p, d); assert p * d == -((-p) * d); }
    if p < 0 && d < 0 { Positive(-p, -d); assert p * d == (-p) * (-d); }
  }

  lemma Positive(a: nat, b: nat)
    requires a > 0 && b > 0
    ensures a * b > 0
  {
  }

  lemma DivScaled(a: nat, d: nat, k: nat)
    requires d > 0 && k > 0
    ensures k * d > 0 && (k * a) / (k * d) == a / d
  {
    var q, r := a / d, a % d;
    Positive(k, d);
    assert k * a == (k * d) * q + k * r by { assert a == d * q + r; assert k * a == k * (d * q) + k * r; }
    assert k * r < k * d by { assert k * (d - r) == k * d - k * r; Positive(k, d - r); }
    DivUnique(k * a, k * d, q, k * r);
  }

  lemma DivUnique(a: nat, p: nat, q: nat, r: nat)
    requires a == p * q + r && r < p
    ensures a / p == q
  {
    var q', r' := a / p, a % p;
    assert a == p * q' + r';
    assert p * (q - q') == p * q - p * q' && p * (q' - q) == p * q' - p * q;
    if q - q' >= 1 { Grows(p, q - q'); }
    if q' - q >= 1 { Grows(p, q' - q); }
  }

  /** Truncated division does not change when both sides are scaled. */
  lemma TruncScaled(num: int, den: int, k: nat)
    requires den != 0 && k > 0
    ensures k * den != 0 && Trunc(k * num, k * den) == Trunc(num, den)
  {
    AbsScaled(num, k);
    AbsScaled(den, k);
    DivScaled(Abs(num), Abs(den), k);
  }

  lemma AbsScaled(x: int, k: nat)
    requires k > 0
    ensures Abs(k * x) == k * Abs(x) && (k * x >= 0) == (x >= 0) && (k * x > 0) == (x > 0)
  {
    if x > 0 { Positive(k, x); }
    if x < 0 { Positive(k, -x); assert k * x == -(k * (-x)); }
  }

  // ---------------------------------------------------------------- solve_plane

  /** The slopes are the true quotients, truncated toward zero, of the attribute and screen cross
      products: nothing is lost before the division. */
  lemma SolvePlaneTruncates(a0: int, a1: int, a2: int, v0: Vertex, v1: Vertex, v2: Vertex, dxhdy: int)
    requires OnGrid(v0) && OnGrid(v1) && OnGrid(v2) && Cross(v0, v1, v2) != 0
    ensures var s := SolvePlane(a0, a1, a2, v0, v1, v2, Area(v0, v1, v2), dxhdy);
            && s.dx == Int32(Trunc(((a1 - a0) * (v2.y - v0.y) - (a2 - a0) * (v1.y - v0.y)) * 0x1_0000, Cross(v0, v1, v2)))
            && s.dy == Int32(Trunc(((a2 - a0) * (v1.x - v0.x) - (a1 - a0) * (v2.x - v0.x)) * 0x1_0000, Cross(v0, v1, v2)))
  {
    AreaExact(v0, v1, v2);
    NumeratorsExact(a0, a1, a2, v0, v1, v2);
    var area := Area(v0, v1, v2);
    var nx, ny := NumX(a0, a1, a2, v0, v1, v2) * 0x100, NumY(a0, a1, a2, v0, v1, v2) * 0x100;
    hide Trunc, Int32, Area, NumX, NumY, Cross, Shr16;
    TruncScaled(nx, area, 0x1_0000);
    TruncScaled(ny, area, 0x1_0000);
  }

  /** The attributes lie on a plane of slopes p and q per pixel, both s15.16. */
  predicate OnPlane(a0: int, a: int, v0: Vertex, v: Vertex, p: int, q: int) {
    (a - a0) * 0x1_0000 == p * (v.x - v0.x) + q * (v.y - v0.y)
  }

  lemma CrossAlgebra(x1: int, y1: int, x2: int, y2: int, p: int, q: int)
    ensures (p * x1 + q * y1) * y2 - (p * x2 + q * y2) * y1 == p * (x1 * y2 - x2 * y1)
    ensures (p * x2 + q * y2) * x1 - (p * x1 + q * y1) * x2 == q * (x1 * y2 - x2 * y1)
  {
    assert (p * x1 + q * y1) * y2 == p * (x1 * y2) + q * (y1 * y2) by { Distribute(p, x1, q, y1, y2); }
    assert (p * x2 + q * y2) * y1 == p * (x2 * y1) + q * (y1 * y2) by { Distribute(p, x2, q, y2, y1); }
    assert (p * x2 + q * y2) * x1 == p * (x1 * x2) + q * (x1 * y2) by { Distribute(p, x2, q, y2, x1); }
    assert (p * x1 + q * y1) * x2 == p * (x1 * x2) + q * (x2 * y1) by { Distribute(p, x1, q, y1, x2); }
    assert p * (x1 * y2) - p * (x2 * y1) == p * (x1 * y2 - x2 * y1);
    assert q * (x1 * y2) - q * (x2 * y1) == q * (x1 * y2 - x2 * y1);
  }

  lemma Distribute(p: int, a: int, q: int, b: int, c: int)
    ensures (p * a + q * b) * c == p * (a * c) + q * (b * c)
    ensures p * (a * c) == p * (c * a) && q * (b * c) == q * (c * b)
  {
    assert (p * a + q * b) * c == (p * a) * c + (q * b) * c;
    assert (p * a) * c == p * (a * c);
    assert (q * b) * c == q * (b * c);
  }

  lemma PlaneNumerators(a0: int, a1: int, a2: int, v0: Vertex, v1: Vertex, v2: Vertex, p: int, q: int)
    requires OnPlane(a0, a1, v0, v1, p, q) && OnPlane(a0, a2, v0, v2, p, q)
    ensures ((a1 - a0) * (v2.y - v0.y) - (a2 - a0) * (v1.y - v0.y)) * 0x1_0000 == p * Cross(v0, v1, v2)
    ensures ((a2 - a0) * (v1.x - v0.x) - (a1 - a0) * (v2.x - v0.x)) * 0x1_0000 == q * Cross(v0, v1, v2)
  {
    var x1, y1, x2, y2 := v1.x - v0.x, v1.y - v0.y, v2.x - v0.x, v2.y - v0.y;
    var b1, b2 := a1 - a0, a2 - a0;
    CrossAlgebra(x1, y1, x2, y2, p, q);
    Rescale(b1, p * x1 + q * y1, y2);
    Rescale(b2, p * x2 + q * y2, y1);
    Rescale(b2, p * x2 + q * y2, x1);
    Rescale(b1, p * x1 + q * y1, x2);
  }

  lemma Rescale(b: int, c: int, y: int)
    requires b * 0x1_0000 == c
    ensures b * y * 0x1_0000 == c * y
  {
    assert b * y * 0x1_0000 == b * 0x1_0000 * y;
  }

  lemma Int32Same(x: int)
    ensures Int32(x) == x <==> InInt32(x)
  {
  }

  lemma PlaneSolved(a0: int, a1: int, a2: int, v0: Vertex, v1: Vertex, v2: Vertex, p: int, q: int, dxhdy: int)
    requires OnGrid(v0) && OnGrid(v1) && OnGrid(v2) && Cross(v0, v1, v2) != 0
    requires OnPlane(a0, a1, v0, v1, p, q) && OnPlane(a0, a2, v0, v2, p, q)
    ensures var s := SolvePlane(a0, a1, a2, v0, v1, v2, Area(v0, v1, v2), dxhdy); s.dx == Int32(p) && s.dy == Int32(q)
  {
    hide Trunc, Area, NumX, NumY, Cross, Shr16, Int32, SolvePlane, OnGrid, OnPlane;
    SolvePlaneTruncates(a0, a1, a2, v0, v1, v2, dxhdy);
    PlaneNumerators(a0, a1, a2, v0, v1, v2, p, q);
    TruncExact(p, Cross(v0, v1, v2));
    TruncExact(q, Cross(v0, v1, v2));
  }

  /** Exact recovery: on the grid, with nonzero area, a plane of integer s15.16 slopes is recovered
      exactly, if and only if the slopes are 32-bit values at all. */
  lemma PlaneRecovered(a0: int, a1: int, a2: int, v0: Vertex, v1: Vertex, v2: Vertex, p: int, q: int, dxhdy: int)
    requires OnGrid(v0) && OnGrid(v1) && OnGrid(v2) && Cross(v0, v1, v2) != 0
    requires OnPlane(a0, a1, v0, v1, p, q) && OnPlane(a0, a2, v0, v2, p, q)
    ensures var s := SolvePlane(a0, a1, a2, v0, v1, v2, Area(v0, v1, v2), dxhdy);
            (s.dx == p <==> InInt32(p)) && (s.dy == q <==> InInt32(q))
  {
    hide Area, Cross, Int32, InInt32, SolvePlane, OnGrid, OnPlane;
    PlaneSolved(a0, a1, a2, v0, v1, v2, p, q, dxhdy);
    Int32Same(p);
    Int32Same(q);
  }

  /** ... and the edge slope is the plane's change along the major edge. */
  lemma EdgeSlopeRecovered(a0: int, a1: int, a2: int, v0: Vertex, v1: Vertex, v2: Vertex, p: int, q: int, dxhdy: int)
    requires OnGrid(v0) && OnGrid(v1) && OnGrid(v2) && Cross(v0, v1, v2) != 0
    requires OnPlane(a0, a1, v0, v1, p, q) && OnPlane(a0, a2, v0, v2, p, q)
    requires InInt32(p) && InInt32(q) && InInt32(Shr16(dxhdy * p)) && InInt32(q + Shr16(dxhdy * p))
    ensures SolvePlane(a0, a1, a2, v0, v1, v2, Area(v0, v1, v2), dxhdy).de == q + Shr16(dxhdy * p)
  {
    PlaneRecovered(a0, a1, a2, v0, v1, v2, p, q, dxhdy);
    hide IDivFix, Area, NumX, NumY, Cross, Shr16, Int32, InInt32, OnGrid, OnPlane;
    Int32Same(Shr16(dxhdy * p));
    Int32Same(q + Shr16(dxhdy * p));
  }

  // ---------------------------------------------------------------- ranges

  /** What S13.2 storage can hold: sixteen bits of quarter pixels. */
  predicate Stored(v: Vertex) {
    -0x2000_0000 <= v.x < 0x2000_0000 && -0x2000_0000 <= v.y < 0x2000_0000
  }

  lemma ProductBound(a: int, b: int, m: nat, n: nat)
    requires Abs(a) <= m && Abs(b) <= n
    ensures Abs(a * b) <= m * n
  {
    assert Abs(a) * Abs(b) <= m * n by {
      assert m * n == Abs(a) * Abs(b) + (m - Abs(a)) * n + Abs(a) * (n - Abs(b));
      NonNegative(m - Abs(a), n);
      NonNegative(Abs(a), n - Abs(b));
    }
    assert a * b == Abs(a) * Abs(b) || a * b == -(Abs(a) * Abs(b)) by {
      assert (-a) * b == -(a * b) && a * (-b) == -(a * b) && (-a) * (-b) == a * b;
    }
  }

  lemma NonNegative(a: nat, b: nat)
    ensures a * b >= 0
  {
  }

  /** No 64-bit intermediate overflows for stored vertices and attributes less than 2^31 apart. */
  lemma NumeratorsFit(a0: int, a1: int, a2: int, v0: Vertex, v1: Vertex, v2: Vertex)
    requires Stored(v0) && Stored(v1) && Stored(v2) && InInt32(a1 - a0) && InInt32(a2 - a0)
    ensures -0x8000_0000_0000_0000 <= NumX(a0, a1, a2, v0, v1, v2) * 0x100 < 0x8000_0000_0000_0000
    ensures -0x8000_0000_0000_0000 <= NumY(a0, a1, a2, v0, v1, v2) * 0x100 < 0x8000_0000_0000_0000
    ensures -0x8000_0000_0000_0000 <= Cross(v0, v1, v2) < 0x8000_0000_0000_0000
  {
    ProductBound(a1 - a0, Shr8(v2.y - v0.y), 0x8000_0000, 0x40_0000);
    ProductBound(a2 - a0, Shr8(v1.y - v0.y), 0x8000_0000, 0x40_0000);
    ProductBound(a2 - a0, Shr8(v1.x - v0.x), 0x8000_0000, 0x40_0000);
    ProductBound(a1 - a0, Shr8(v2.x - v0.x), 0x8000_0000, 0x40_0000);
    ProductBound(v1.x - v0.x, v2.y - v0.y, 0x4000_0000, 0x4000_0000);
    ProductBound(v2.x - v0.x, v1.y - v0.y, 0x4000_0000, 0x4000_0000);
  }

  // ---------------------------------------------------------------- the edges

  /** dxhdy, dxmdy and dxldy: s15.16 columns per row. */
  function EdgeSlope(v: Vertex, w: Vertex): int {
    IDivFix((w.x - v.x) * 0x1_0000, w.y - v.y)
  }

  /** s_dyfix: back from the top vertex to the row that contains it. */
  function TopFix(y: int): int {
    y - y % 0x1_0000 - y
  }

  /** xH and xM: the edge from v to w where it crosses that row. */
  function EdgeStart(v: Vertex, w: Vertex): int {
    v.x + Int32(Shr16(EdgeSlope(v, w) * TopFix(v.y)))
  }

  /** Where the edge, walked from its start, stands at height y; in units of 2^-32. */
  function Walked(v: Vertex, w: Vertex, y: int): int {
    EdgeStart(v, w) * 0x1_0000 + EdgeSlope(v, w) * (y - v.y / 0x1_0000 * 0x1_0000)
  }

  lemma TopRow(y: int)
    ensures y + TopFix(y) == y / 0x1_0000 * 0x1_0000
  {
  }

  /** A flat edge has no slope, and no area no plane. */
  lemma Degenerate(v: Vertex, w: Vertex, a0: int, a1: int, a2: int, v0: Vertex, v1: Vertex, v2: Vertex, dxhdy: int)
    ensures v.y == w.y ==> EdgeSlope(v, w) == 0
    ensures SolvePlane(a0, a1, a2, v0, v1, v2, 0, dxhdy) == Slopes(0, 0, 0)
  {
    hide NumX, NumY;
    assert dxhdy * 0 == 0;
  }

  lemma TruncError(n: int, d: int)
    requires d > 0
    ensures -d < Trunc(n, d) * d - n < d
    ensures Trunc(n, d) * d == n <==> Abs(n) % d == 0
  {
    var q, r := Abs(n) / d, Abs(n) % d;
    assert Abs(n) == d * q + r;
    assert q * d == d * q && (-q) * d == -(q * d);
  }

  lemma FixInRange(m: int, fix: int)
    requires InInt32(m) && -0x1_0000 < fix <= 0
    ensures InInt32(Shr16(m * fix))
  {
    ProductBound(m, fix, 0x8000_0000, 0xffff);
  }

  /** At its top vertex a walked edge is less than 2^-16 of a pixel short. */
  lemma WalkedTop(v: Vertex, w: Vertex)
    requires v.y < w.y && InInt32(Trunc((w.x - v.x) * 0x1_0000, w.y - v.y))
    ensures Walked(v, w, v.y) == v.x * 0x1_0000 - EdgeSlope(v, w) * TopFix(v.y) % 0x1_0000
  {
    assert InInt32(EdgeSlope(v, w)) && -0x1_0000 < TopFix(v.y) <= 0;
    hide EdgeSlope, TopFix, Int32, InInt32, Shr16;
    var m, fix := EdgeSlope(v, w), TopFix(v.y);
    TopRow(v.y);
    FixInRange(m, fix);
    Int32Same(Shr16(m * fix));
    Shr16Floor(m * fix);
    assert m * (v.y - (v.y + fix)) == -(m * fix);
  }

  lemma Shr16Floor(x: int)
    ensures Shr16(x) * 0x1_0000 == x - x % 0x1_0000
  {
  }

  lemma SlopeTruncates(v: Vertex, w: Vertex)
    requires v.y < w.y && InInt32(Trunc((w.x - v.x) * 0x1_0000, w.y - v.y))
    ensures EdgeSlope(v, w) == Trunc((w.x - v.x) * 0x1_0000, w.y - v.y)
  {
    Int32Same(Trunc((w.x - v.x) * 0x1_0000, w.y - v.y));
  }

  lemma WalkedDown(v: Vertex, w: Vertex)
    ensures Walked(v, w, w.y) - Walked(v, w, v.y) == EdgeSlope(v, w) * (w.y - v.y)
  {
    hide EdgeSlope, EdgeStart, TopFix;
    var m, y0 := EdgeSlope(v, w), v.y / 0x1_0000 * 0x1_0000;
    assert m * (w.y - y0) - m * (v.y - y0) == m * (w.y - v.y);
  }

  /** A walked edge meets its top vertex to less than 2^-16 of a pixel and is off at the bottom one by
      less than that again for every row it crosses. It passes exactly through both vertices, as the
      comment on the edge starts has it, if and only if neither the slope nor the walk back is rounded. */
  lemma EdgeThroughVertices(v: Vertex, w: Vertex)
    requires v.y < w.y && InInt32(Trunc((w.x - v.x) * 0x1_0000, w.y - v.y))
    ensures v.x * 0x1_0000 - 0x1_0000 < Walked(v, w, v.y) <= v.x * 0x1_0000
    ensures -(w.y - v.y) < Walked(v, w, w.y) - Walked(v, w, v.y) - (w.x - v.x) * 0x1_0000 < w.y - v.y
    ensures (Walked(v, w, v.y) == v.x * 0x1_0000 && Walked(v, w, w.y) == w.x * 0x1_0000)
       <==> (Abs((w.x - v.x) * 0x1_0000) % (w.y - v.y) == 0 && EdgeSlope(v, w) * TopFix(v.y) % 0x1_0000 == 0)
  {
    hide EdgeSlope, EdgeStart, TopFix, Walked, Trunc, InInt32, Abs;
    WalkedTop(v, w);
    WalkedDown(v, w);
    SlopeTruncates(v, w);
    TruncError((w.x - v.x) * 0x1_0000, w.y - v.y);
  }

  /** ... which no edge from a whole row to one pixel right and three down does. */
  lemma EdgeMissesVertex(v: Vertex, w: Vertex)
    requires v.y % 0x1_0000 == 0 && w == Vertex(v.x + 0x1_0000, v.y + 0x3_0000)
    ensures Walked(v, w, v.y) == v.x * 0x1_0000 && Walked(v, w, w.y) == w.x * 0x1_0000 - 0x1_0000
  {
    OneThird(w.x - v.x, w.y - v.y);
    assert TopFix(v.y) == 0;
    hide Trunc, EdgeSlope, EdgeStart, TopFix, Walked;
    SlopeTruncates(v, w);
    WalkedTop(v, w);
    WalkedDown(v, w);
  }

  lemma OneThird(dx: int, dy: int)
    requires dx == 0x1_0000 && dy == 0x3_0000
    ensures Trunc(dx * 0x1_0000, dy) == 0x5555
  {
  }

  // ---------------------------------------------------------------- depth

  /** Whether 32 z is a 32-bit value. */
  predicate NearDepth(z: int) {
    -0x400_0000 < z < 0x400_0000
  }

  function Saturate(g: int): int {
    if g > 0x7fff_ffff then 0x7fff_ffff else if g < -0x7fff_ffff then -0x7fff_ffff else g
  }

  /** The gradients of emit_z_block, of 32 times the screen depth. */
  function DepthSlopes(z0: int, z1: int, z2: int, v0: Vertex, v1: Vertex, v2: Vertex, area: int, dxhdy: int): Slopes {
    if NearDepth(z0) && NearDepth(z1) && NearDepth(z2) then
      SolvePlane(z0 * 32, z1 * 32, z2 * 32, v0, v1, v2, area, dxhdy)
    else
      var s := SolvePlane(z0, z1, z2, v0, v1, v2, area, dxhdy);
      Slopes(Saturate(s.dx * 32), Saturate(s.dy * 32), Saturate(s.de * 32))
  }

  /** 32 times g, held within 31 bits. */
  function Held(g: int): int {
    if 32 * g >= 0x8000_0000 then 0x7fff_ffff else if 32 * g <= -0x8000_0000 then -0x7fff_ffff else 32 * g
  }

  /** Beyond the range the plane is solved unscaled, and its slopes, the one along the edge included, are
      scaled and held. */
  lemma FarDepth(z0: int, z1: int, z2: int, v0: Vertex, v1: Vertex, v2: Vertex, area: int, dxhdy: int)
    ensures var s, u := DepthSlopes(z0, z1, z2, v0, v1, v2, area, dxhdy), SolvePlane(z0, z1, z2, v0, v1, v2, area, dxhdy);
            (Abs(z0) >= 0x400_0000 || Abs(z1) >= 0x400_0000 || Abs(z2) >= 0x400_0000 ==> s == Slopes(Held(u.dx), Held(u.dy), Held(u.de)))
  {
    hide SolvePlane;
  }

  lemma PlaneTimes32(a0: int, a: int, v0: Vertex, v: Vertex, p: int, q: int)
    requires OnPlane(a0, a, v0, v, p, q)
    ensures OnPlane(a0 * 32, a * 32, v0, v, p * 32, q * 32)
  {
    var x, y := v.x - v0.x, v.y - v0.y;
    assert p * 32 * x == p * x * 32 && q * 32 * y == q * y * 32;
  }

  /** Both ways of solving a depth plane give 32 times its slopes: the one for vertices within range if
      and only if that is a 32-bit value, the one for vertices beyond it if and only if it does not
      saturate. A plane whose slopes fit solves the same whichever way its vertices lie. */
  lemma DepthRecovered(z0: int, z1: int, z2: int, v0: Vertex, v1: Vertex, v2: Vertex, p: int, q: int, dxhdy: int)
    requires OnGrid(v0) && OnGrid(v1) && OnGrid(v2) && Cross(v0, v1, v2) != 0
    requires OnPlane(z0, z1, v0, v1, p, q) && OnPlane(z0, z2, v0, v2, p, q) && InInt32(p) && InInt32(q)
    ensures var s := DepthSlopes(z0, z1, z2, v0, v1, v2, Area(v0, v1, v2), dxhdy);
            var near := (-0x400_0000 < z0 < 0x400_0000) && (-0x400_0000 < z1 < 0x400_0000) && (-0x400_0000 < z2 < 0x400_0000);
            && (s.dx == p * 32 <==> if near then InInt32(p * 32) else -0x400_0000 < p < 0x400_0000)
            && (s.dy == q * 32 <==> if near then InInt32(q * 32) else -0x400_0000 < q < 0x400_0000)
  {
    hide Area, Cross, Int32, SolvePlane, OnGrid, OnPlane;
    PlaneTimes32(z0, z1, v0, v1, p, q);
    PlaneTimes32(z0, z2, v0, v2, p, q);
    PlaneRecovered(z0, z1, z2, v0, v1, v2, p, q, dxhdy);
    PlaneRecovered(z0 * 32, z1 * 32, z2 * 32, v0, v1, v2, p * 32, q * 32, dxhdy);
  }

  // ---------------------------------------------------------------- the order of the vertices

  /** (x, y, z) is (a, b, c) in some order. */
  predicate Rearranged(x: Vertex, y: Vertex, z: Vertex, a: Vertex, b: Vertex, c: Vertex) {
    || (x == a && ((y == b && z == c) || (y == c && z == b)))
    || (x == b && ((y == a && z == c) || (y == c && z == a)))
    || (x == c && ((y == a && z == b) || (y == b && z == a)))
  }

  /** The exchange sort of emit_edges, on three. */
  method SortByY(va: Vertex, vb: Vertex, vc: Vertex) returns (vh: Vertex, vm: Vertex, vl: Vertex)
    ensures vh.y <= vm.y <= vl.y && Rearranged(vh, vm, vl, va, vb, vc)
  {
    var v := new Vertex[3];
    v[0], v[1], v[2] := va, vb, vc;
    for i := 0 to 2
      invariant Rearranged(v[0], v[1], v[2], va, vb, vc)
      invariant i >= 1 ==> v[0].y <= v[1].y && v[0].y <= v[2].y
      invariant i >= 2 ==> v[1].y <= v[2].y
    {
      for j := i + 1 to 3
        invariant Rearranged(v[0], v[1], v[2], va, vb, vc)
        invariant i >= 1 ==> v[0].y <= v[1].y && v[0].y <= v[2].y
        invariant forall k | i < k < j :: v[i].y <= v[k].y
      {
        if v[j].y < v[i].y { v[i], v[j] := v[j], v[i]; }
      }
    }
    vh, vm, vl := v[0], v[1], v[2];
  }

  /** The recovered slopes are the plane's, whichever vertex the solver starts from and whichever way
      round it goes. */
  lemma OrderIndependent(a0: int, a1: int, a2: int, v0: Vertex, v1: Vertex, v2: Vertex, p: int, q: int, dxhdy: int, dxhdy': int)
    requires OnGrid(v0) && OnGrid(v1) && OnGrid(v2) && Cross(v0, v1, v2) != 0
    requires OnPlane(a0, a1, v0, v1, p, q) && OnPlane(a0, a2, v0, v2, p, q) && InInt32(p) && InInt32(q)
    ensures var s, t, u :=
              SolvePlane(a0, a1, a2, v0, v1, v2, Area(v0, v1, v2), dxhdy),
              SolvePlane(a1, a2, a0, v1, v2, v0, Area(v1, v2, v0), dxhdy'),
              SolvePlane(a0, a2, a1, v0, v2, v1, Area(v0, v2, v1), dxhdy');
            s.dx == t.dx == u.dx == p && s.dy == t.dy == u.dy == q
  {
    CrossTurned(v0, v1, v2);
    PlaneTurned(a0, a1, a2, v0, v1, v2, p, q);
    hide Cross, OnPlane, SolvePlane, Area;
    PlaneRecovered(a0, a1, a2, v0, v1, v2, p, q, dxhdy);
    PlaneRecovered(a1, a2, a0, v1, v2, v0, p, q, dxhdy');
    PlaneRecovered(a0, a2, a1, v0, v2, v1, p, q, dxhdy');
  }

  lemma CrossTurned(v0: Vertex, v1: Vertex, v2: Vertex)
    ensures Cross(v1, v2, v0) == Cross(v0, v1, v2) && Cross(v0, v2, v1) == -Cross(v0, v1, v2)
  {
    var x1, y1, x2, y2 := v1.x - v0.x, v1.y - v0.y, v2.x - v0.x, v2.y - v0.y;
    assert v2.x - v1.x == x2 - x1 && v2.y - v1.y == y2 - y1 && v0.x - v1.x == -x1 && v0.y - v1.y == -y1;
    assert (x2 - x1) * (-y1) == x1 * y1 - x2 * y1;
    assert (-x1) * (y2 - y1) == x1 * y1 - x1 * y2;
  }

  lemma PlaneTurned(a0: int, a1: int, a2: int, v0: Vertex, v1: Vertex, v2: Vertex, p: int, q: int)
    requires OnPlane(a0, a1, v0, v1, p, q) && OnPlane(a0, a2, v0, v2, p, q)
    ensures OnPlane(a1, a2, v1, v2, p, q) && OnPlane(a1, a0, v1, v0, p, q)
  {
    var x1, y1, x2, y2 := v1.x - v0.x, v1.y - v0.y, v2.x - v0.x, v2.y - v0.y;
    assert v2.x - v1.x == x2 - x1 && v2.y - v1.y == y2 - y1 && v0.x - v1.x == -x1 && v0.y - v1.y == -y1;
    assert p * (x2 - x1) == p * x2 - p * x1 && q * (y2 - y1) == q * y2 - q * y1;
    assert p * (-x1) == -(p * x1) && q * (-y1) == -(q * y1);
  }
}
