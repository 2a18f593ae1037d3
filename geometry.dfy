/** The screen geometry of the goban: the conversion between grid points and pixels done by
    the static methods of `Stone` (goban.py:44-54), the outline rectangle the board draws and
    then inflates into the area that accepts mouse clicks (goban.py:61, goban.py:77), the
    grid of drawn cells (goban.py:78-81) and the click handling of the event loop
    (goban.py:145-147).

    `coords_to_points` divides by the float 40.0 and calls `round`; here that is integer
    nearest rounding with Euclidean `/` and `%`, which agrees with the float computation on
    every pixel a window can report: an exact half is representable, and any other quotient
    is at least 1/40 away from a half. */
module Geometry {
  import opened Types

  /** Pixels between two neighbouring grid lines. */
  const Spacing: int := 40
  /** Half of `Spacing`: the farthest a pixel can be from the intersection it snaps to. */
  const Half: int := 20
  /** Pixel column of grid column 0 (goban.py:52). */
  const OriginX: int := 5
  /** Pixel row of grid row 0 (goban.py:53). */
  const OriginY: int := 105

  /** How `round` resolves an exact half: Python 2 rounds it away from zero, Python 3 to
      the even neighbour. The program runs under either, so the mode is a parameter. */
  datatype Rounding = HalfAwayFromZero | HalfToEven

  function Abs(n: int): nat
  {
    if n < 0 then -n else n
  }

  /** The pixel of grid index `p` on an axis whose index 0 sits at pixel `origin`. */
  function AxisToPixel(p: int, origin: int): int
  {
    origin + Spacing * p
  }

  /** `round(q + 0.5)` under `mode`. */
  function BreakTie(q: int, mode: Rounding): (p: int)
    ensures p == q || p == q + 1
    ensures mode == HalfToEven ==> p % 2 == 0
    ensures mode == HalfAwayFromZero ==> (p == q + 1 <==> 2 * q + 1 > 0)
  {
    match mode
    case HalfAwayFromZero => if q >= 0 then q + 1 else q
    case HalfToEven => if q % 2 == 0 then q else q + 1
  }

  /** `int(round((c - origin) / 40.0, 0))`: the grid index nearest to pixel `c`. The pixel is
      at most half a spacing from the pixel of the index it snaps to, strictly less unless it
      lies exactly halfway between two indices, and no other index is nearer. */
  function PixelToAxis(c: int, origin: int, mode: Rounding): (p: int)
    ensures -Half <= c - AxisToPixel(p, origin) <= Half
    ensures (c - origin) % Spacing != Half ==> Abs(c - AxisToPixel(p, origin)) < Half
    ensures forall k :: Abs(c - AxisToPixel(k, origin)) >= Abs(c - AxisToPixel(p, origin))
  {
    var q, r := (c - origin) / Spacing, (c - origin) % Spacing;
    var p := if r < Half then q else if r > Half then q + 1 else BreakTie(q, mode);
    assert c - AxisToPixel(p, origin) == r - Spacing * (p - q);
    forall k ensures Abs(c - AxisToPixel(k, origin)) >= Abs(c - AxisToPixel(p, origin)) {
      SpacedApart(k, p, origin);
    }
    p
  }

  /** Two different grid indices are at least a full spacing apart on screen. */
  lemma SpacedApart(k: int, p: int, origin: int)
    ensures k != p ==> Abs(AxisToPixel(k, origin) - AxisToPixel(p, origin)) >= Spacing
  {
  }

  /** `Stone.points_to_coords` (goban.py:50-54): the pixel a point is drawn at lies on the
      lattice of intersections, and `coords_to_points` takes it back to the point under
      either rounding mode. */
  function PointsToCoords(x: int, y: int): (c: (int, int))
    ensures (c.0 - OriginX) % Spacing == 0 && (c.1 - OriginY) % Spacing == 0
    ensures forall mode: Rounding :: CoordsToPoints(c.0, c.1, mode) == (x, y)
  {
    assert forall mode: Rounding :: PixelToAxis(AxisToPixel(x, OriginX), OriginX, mode) == x;
    assert forall mode: Rounding :: PixelToAxis(AxisToPixel(y, OriginY), OriginY, mode) == y;
    (AxisToPixel(x, OriginX), AxisToPixel(y, OriginY))
  }

  /** `Stone.coords_to_points` (goban.py:44-48): the point whose pixel is within half a
      spacing of the clicked pixel on each axis. */
  function CoordsToPoints(cx: int, cy: int, mode: Rounding): (p: (int, int))
    ensures Abs(cx - AxisToPixel(p.0, OriginX)) <= Half && Abs(cy - AxisToPixel(p.1, OriginY)) <= Half
  {
    (PixelToAxis(cx, OriginX, mode), PixelToAxis(cy, OriginY, mode))
  }

  /** Moving to a larger grid index moves strictly right (or down) on screen. */
  lemma PointsToCoordsIncreasing(x1: int, y1: int, x2: int, y2: int)
    ensures x1 < x2 ==> PointsToCoords(x1, y1).0 < PointsToCoords(x2, y2).0
    ensures y1 < y2 ==> PointsToCoords(x1, y1).1 < PointsToCoords(x2, y2).1
  {
  }

  /** Converting a grid point to pixels and back gives the point again, under either
      rounding mode. */
  lemma CoordsRoundTrip(x: int, y: int, mode: Rounding)
    ensures CoordsToPoints(PointsToCoords(x, y).0, PointsToCoords(x, y).1, mode) == (x, y)
  {
    var (cx, cy) := PointsToCoords(x, y);
    assert cx - OriginX == Spacing * x && cy - OriginY == Spacing * y;
  }

  /** Distinct grid points are drawn at distinct pixels. */
  lemma PointsToCoordsInjective(x1: int, y1: int, x2: int, y2: int)
    requires PointsToCoords(x1, y1) == PointsToCoords(x2, y2)
    ensures x1 == x2 && y1 == y2
  {
    CoordsRoundTrip(x1, y1, HalfToEven);
    CoordsRoundTrip(x2, y2, HalfToEven);
  }

  /** Snapping a pixel to a grid index never reverses the order of two pixels. */
  lemma PixelToAxisMonotone(c1: int, c2: int, origin: int, mode: Rounding)
    requires c1 <= c2
    ensures PixelToAxis(c1, origin, mode) <= PixelToAxis(c2, origin, mode)
  {
    var p1, p2 := PixelToAxis(c1, origin, mode), PixelToAxis(c2, origin, mode);
    // Were p1 beyond p2, p1's pixel would be a full spacing past p2's, and the two pixels,
    // each within half a spacing of its own index, would coincide: then so would p1 and p2.
    assert p1 > p2 ==> AxisToPixel(p1, origin) >= AxisToPixel(p2, origin) + Spacing;
    assert p1 > p2 ==> c1 == c2;
  }

  /** The squared Euclidean distance between two pixels. */
  function SquaredDistance(a: (int, int), b: (int, int)): nat
  {
    (a.0 - b.0) * (a.0 - b.0) + (a.1 - b.1) * (a.1 - b.1)
  }

  lemma SquareMonotone(a: int, b: int)
    requires Abs(a) >= Abs(b)
    ensures a * a >= b * b
  {
    var u, v := Abs(a), Abs(b);
    assert a * a == u * u && b * b == v * v;
    MultiplyMonotone(v, u, u);
    MultiplyMonotone(v, u, v);
  }

  lemma MultiplyMonotone(a: int, b: int, c: nat)
    requires a <= b
    ensures a * c <= b * c
  {
    assert b * c - a * c == (b - a) * c;
  }

  /** `coords_to_points` picks the intersection nearest to the clicked pixel. */
  lemma CoordsToPointsNearest(cx: int, cy: int, mode: Rounding, x: int, y: int)
    ensures var p := CoordsToPoints(cx, cy, mode);
      SquaredDistance((cx, cy), PointsToCoords(p.0, p.1)) <= SquaredDistance((cx, cy), PointsToCoords(x, y))
  {
    var p := CoordsToPoints(cx, cy, mode);
    SquareMonotone(cx - AxisToPixel(x, OriginX), cx - AxisToPixel(p.0, OriginX));
    SquareMonotone(cy - AxisToPixel(y, OriginY), cy - AxisToPixel(p.1, OriginY));
  }

  /** A pygame `Rect`: left and top corner, width and height, in pixels. */
  datatype Rect = Rect(left: int, top: int, width: int, height: int)
  {
    /** `Rect.collidepoint`: the left and top edges are inside, the right and bottom edges
        are not. */
    predicate Contains(px: int, py: int)
      ensures Contains(px, py) ==> 0 < width && 0 < height
    {
      left <= px < left + width && top <= py < top + height
    }

    /** `Rect.inflate_ip(dx, dy)`: the size grows by `dx` and `dy` and the corner moves back
        by half of each, halved with C's truncating division. */
    function Inflate(dx: int, dy: int): (r: Rect)
      ensures r.width == width + dx && r.height == height + dy
      ensures dx % 2 == 0 && dy % 2 == 0 ==>
        2 * r.left + r.width == 2 * left + width && 2 * r.top + r.height == 2 * top + height
      ensures 0 <= dx && 0 <= dy ==>
        forall px, py :: Contains(px, py) ==> r.Contains(px, py)
    {
      Rect(left - TruncHalf(dx), top - TruncHalf(dy), width + dx, height + dy)
    }
  }

  /** Because `collidepoint` leaves out the right and bottom edges, a rectangle and the one
      of the same size placed right after it, across or down, share no pixel. */
  lemma AdjacentRectsDisjoint(r: Rect, px: int, py: int)
    requires r.Contains(px, py)
    ensures !Rect(r.left + r.width, r.top, r.width, r.height).Contains(px, py)
    ensures !Rect(r.left, r.top + r.height, r.width, r.height).Contains(px, py)
  {
  }

  /** C's `n / 2` on an `int`, which truncates toward zero. */
  function TruncHalf(n: int): (h: int)
    ensures 0 <= n ==> 0 <= 2 * h <= n && n - 2 * h < 2
    ensures n < 0 ==> n <= 2 * h <= 0 && 2 * h - n < 2
  {
    if n >= 0 then n / 2 else -((-n) / 2)
  }

  /** The board outline as drawn (goban.py:61). */
  const Drawn: Rect := Rect(45, 145, 720, 720)

  /** The outline after `inflate_ip(20, 20)` (goban.py:77): the rectangle that accepts
      clicks, ten pixels wider than the drawn outline on every side. */
  function Outline(): (r: Rect)
    ensures forall px, py :: r.Contains(px, py) <==> 35 <= px < 775 && 135 <= py < 875
  {
    Drawn.Inflate(20, 20)
  }

  /** The cell at column `i` and row `j` of the drawn 18 x 18 grid (goban.py:78-81). The
      drawn grid lines lie on the grid points 1 to 19: cell `(i, j)` runs from the pixel of
      point `(i + 1, j + 1)` to the pixel of point `(i + 2, j + 2)`. */
  function GridCell(i: int, j: int): (r: Rect)
    requires 0 <= i < 18 && 0 <= j < 18
    ensures (r.left, r.top) == PointsToCoords(i + 1, j + 1)
    ensures (r.left + r.width, r.top + r.height) == PointsToCoords(i + 2, j + 2)
  {
    Rect(45 + Spacing * i, 145 + Spacing * j, Spacing, Spacing)
  }

  /** Every pixel inside the click rectangle snaps to a point with both coordinates in
      1..19, whatever the rounding mode: never to point 0, never past the last line. */
  lemma ClickLandsOnBoard(cx: int, cy: int, mode: Rounding)
    requires Outline().Contains(cx, cy)
    ensures 1 <= CoordsToPoints(cx, cy, mode).0 <= 19
    ensures 1 <= CoordsToPoints(cx, cy, mode).1 <= 19
  {
    PixelToAxisMonotone(35, cx, OriginX, mode);
    PixelToAxisMonotone(cx, 774, OriginX, mode);
    PixelToAxisMonotone(135, cy, OriginY, mode);
    PixelToAxisMonotone(cy, 874, OriginY, mode);
  }

  /** The pixel of every point with coordinates in 1..19 is inside the click rectangle. */
  lemma BoardPointsInOutline(x: int, y: int)
    requires 1 <= x <= 19 && 1 <= y <= 19
    ensures Outline().Contains(PointsToCoords(x, y).0, PointsToCoords(x, y).1)
  {
  }

  /** What the event loop does with a mouse-button event at pixel `(cx, cy)`
      (goban.py:144-147): a left click (button 1) inside the click rectangle becomes the
      point it snaps to, and anything else is ignored. */
  function Click(button: int, cx: int, cy: int, mode: Rounding): (r: Option<Point>)
    ensures r.Some? <==> button == 1 && 35 <= cx < 775 && 135 <= cy < 875
    ensures r.Some? ==> 1 <= r.value.x <= 19 && 1 <= r.value.y <= 19
    ensures r.Some? ==>
      Abs(cx - AxisToPixel(r.value.x, OriginX)) <= Half && Abs(cy - AxisToPixel(r.value.y, OriginY)) <= Half
  {
    if button == 1 && Outline().Contains(cx, cy) then
      ClickLandsOnBoard(cx, cy, mode);
      var (x, y) := CoordsToPoints(cx, cy, mode);
      Some(Point(x, y))
    else
      None
  }

  /** Each of the 19 x 19 drawn intersections is selected by a left click on its own pixel,
      so every point of the drawn board can be played. */
  lemma EveryBoardPointClickable(x: int, y: int, mode: Rounding)
    requires 1 <= x <= 19 && 1 <= y <= 19
    ensures Click(1, PointsToCoords(x, y).0, PointsToCoords(x, y).1, mode) == Some(Point(x, y))
  {
    BoardPointsInOutline(x, y);
    CoordsRoundTrip(x, y, mode);
  }
}
