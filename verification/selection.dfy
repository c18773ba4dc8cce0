/** The corner-point selection state of the photo canvas and the two events that change it:
    an image finishing loading, and a click on the canvas. */
module Selection {
  import opened Geometry

  /** The warp needs exactly this many source corners. */
  const MaxPoints: nat := 4

  /** The page-level selection variables: whether an image has loaded, the click counter,
      and the clicked points in click order. The counter and the list are kept separately,
      as the page keeps them. */
  datatype State = State(imgLoaded: bool, clickCount: nat, srcPoints: seq<Point>)

  /** The state before any image has loaded. */
  const Initial := State(false, 0, [])

  /** The counter agrees with the list, and the list never outgrows the quadrilateral. */
  predicate Valid(s: State) {
    s.clickCount == |s.srcPoints| <= MaxPoints
  }

  /** Loading an image marks it loaded and forgets every earlier selection; the result does
      not depend on the prior state. */
  function OnImageLoad(s: State): (r: State)
    ensures r.imgLoaded && r.clickCount == 0 && r.srcPoints == []
    ensures Valid(r)
  {
    State(true, 0, [])
  }

  /** What the page draws for an accepted click: a marker at the point, numbered with the
      counter after the click. */
  datatype Marker = Marker(at: Point, number: nat)

  /** Ignored: no image yet, silently. TooMany: refused with an alert. */
  datatype ClickResponse = Ignored | TooMany | Added(marker: Marker) {

    /** The alert shown for a refused click. */
    function AlertMessage(): string
      requires TooMany?
    {
      "You've already selected 4 points. Press 'Warp & Show in 3D' or reload image."
    }
  }

  datatype ClickStep = ClickStep(next: State, response: ClickResponse)

  /** A click at viewport position `client` on a canvas whose bounding rectangle has its
      top-left corner at `rectOrigin`. */
  function OnClick(s: State, client: Point, rectOrigin: Point): (r: ClickStep)
    ensures r.response.Ignored? <==> !s.imgLoaded
    ensures r.response.TooMany? <==> s.imgLoaded && s.clickCount >= MaxPoints
    ensures !r.response.Added? ==> r.next == s
    ensures r.response.Added? ==>
      && Add(r.response.marker.at, rectOrigin) == client
      && r.next.imgLoaded == s.imgLoaded
      && r.next.srcPoints == s.srcPoints + [r.response.marker.at]
      && r.next.clickCount == s.clickCount + 1
      && r.response.marker.number == r.next.clickCount
    ensures Valid(s) ==> Valid(r.next)
  {
    if !s.imgLoaded then
      ClickStep(s, Ignored)
    else if s.clickCount >= MaxPoints then
      ClickStep(s, TooMany)
    else
      var p := CanvasRelative(client, rectOrigin);
      var next := State(s.imgLoaded, s.clickCount + 1, s.srcPoints + [p]);
      ClickStep(next, Added(Marker(p, next.clickCount)))
  }
}
