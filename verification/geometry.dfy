/** Points and quadrilaterals in CSS pixels relative to the canvas's bounding rectangle,
    and the flat coordinate layout in which the page hands a quadrilateral to the
    perspective-transform library.

    JavaScript numbers are modelled as exact reals: the rounding of IEEE doubles is not
    part of this model. */
module Geometry {

  /** A 2-D point in CSS pixels (x grows rightward, y grows downward). */
  datatype Point = Point(x: real, y: real)

  const Origin := Point(0.0, 0.0)

  /** Translation of `p` by the vector `v`. */
  function Add(p: Point, v: Point): Point {
    Point(p.x + v.x, p.y + v.y)
  }

  /** The pointer position `client` (in viewport coordinates) re-expressed relative to the
      top-left corner `origin` of the canvas' bounding rectangle. */
  function CanvasRelative(client: Point, origin: Point): (p: Point)
    ensures Add(p, origin) == client
  {
    Point(client.x - origin.x, client.y - origin.y)
  }

  /** Four corners in a fixed order: p0, p1, p2, p3. */
  datatype Quad = Quad(p0: Point, p1: Point, p2: Point, p3: Point) {

    function Corners(): (cs: seq<Point>)
      ensures |cs| == 4
    {
      [p0, p1, p2, p3]
    }
  }

  /** The quadrilateral made of the first four points of `ps`, in their order in `ps`. */
  function QuadOf(ps: seq<Point>): (q: Quad)
    requires |ps| >= 4
    ensures q.Corners() == ps[..4]
  {
    Quad(ps[0], ps[1], ps[2], ps[3])
  }

  /** Twice the signed area of `q` by the shoelace formula. With y growing downward a
      positive value means the corners run clockwise on screen. */
  function TwiceSignedArea(q: Quad): real {
    (q.p0.x * q.p1.y - q.p1.x * q.p0.y)
    + (q.p1.x * q.p2.y - q.p2.x * q.p1.y)
    + (q.p2.x * q.p3.y - q.p3.x * q.p2.y)
    + (q.p3.x * q.p0.y - q.p0.x * q.p3.y)
  }

  /** The corners are top-left, top-right, bottom-right, bottom-left, in that order. */
  predicate InScreenOrder(q: Quad) {
    && q.p0.x <= q.p1.x && q.p3.x <= q.p2.x
    && q.p0.y <= q.p3.y && q.p1.y <= q.p2.y
  }

  /** The axis-aligned rectangle with one corner at the origin and the opposite corner at
      (w, h), listed as (0,0), (w,0), (w,h), (0,h). No sign of `w` or `h` is required. */
  function RectangleQuad(w: real, h: real): (q: Quad)
    ensures q.p0 == Origin && q.p2 == Point(w, h)
    ensures q.p0.y == q.p1.y && q.p1.x == q.p2.x && q.p2.y == q.p3.y && q.p3.x == q.p0.x
    ensures TwiceSignedArea(q) == 2.0 * w * h
    ensures 0.0 <= w && 0.0 <= h ==> InScreenOrder(q)
  {
    Quad(Origin, Point(w, 0.0), Point(w, h), Point(0.0, h))
  }

  /** The four corners as eight numbers x0, y0, x1, y1, x2, y2, x3, y3: the layout of a
      4x1 matrix with two channels per element. */
  function Flatten(q: Quad): (a: seq<real>)
    ensures |a| == 8
    ensures forall i :: 0 <= i < 4 ==> a[2 * i] == q.Corners()[i].x
    ensures forall i :: 0 <= i < 4 ==> a[2 * i + 1] == q.Corners()[i].y
  {
    [q.p0.x, q.p0.y, q.p1.x, q.p1.y, q.p2.x, q.p2.y, q.p3.x, q.p3.y]
  }

  /** Reads eight interleaved coordinates back as a quadrilateral. */
  function Unflatten(a: seq<real>): (q: Quad)
    requires |a| == 8
    ensures Flatten(q) == a
  {
    Quad(Point(a[0], a[1]), Point(a[2], a[3]), Point(a[4], a[5]), Point(a[6], a[7]))
  }

  /** No information is lost by the flat layout. */
  lemma UnflattenFlatten(q: Quad)
    ensures Unflatten(Flatten(q)) == q
  {
  }
}
