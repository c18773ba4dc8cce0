/** The gate in front of the perspective warp and the arguments the page hands to the
    perspective-transform library when the gate lets it through. */
module Warp {
  import opened Geometry
  import opened Selection

  /** Output size in pixels, taken 1:1 from the real-world width and height fields. */
  datatype Size = Size(width: real, height: real)

  /** What the library receives: the source corners, the destination corners (each packed
      with `Flatten`, see `WarpArrays`), and the output size used for the warp and the result
      canvas. */
  datatype WarpRequest = WarpRequest(srcQuad: Quad, dstQuad: Quad, outputSize: Size)

  /** The two refusals, checked in this order. */
  datatype WarpError = MissingImageOrPoints | LibraryNotReady {

    function Message(): string {
      match this
      case MissingImageOrPoints => "Please load an image and select 4 points first."
      case LibraryNotReady => "OpenCV.js is not ready yet. Please wait a moment and try again."
    }
  }

  datatype WarpOutcome = Refused(error: WarpError) | Accepted(request: WarpRequest)

  /** The warp button. `libraryReady` says whether the image library has finished loading;
      `realWidth` and `realHeight` are the parsed field values, used without validation.
      The selection state is only read. */
  function OnWarp(s: State, libraryReady: bool, realWidth: real, realHeight: real): (r: WarpOutcome)
    ensures r.Accepted? <==> s.imgLoaded && |s.srcPoints| >= MaxPoints && libraryReady
    ensures r == Refused(MissingImageOrPoints) <==> !s.imgLoaded || |s.srcPoints| < MaxPoints
    ensures r.Accepted? ==>
      && r.request.srcQuad.Corners() == s.srcPoints[..MaxPoints]
      && r.request.dstQuad == RectangleQuad(realWidth, realHeight)
      && r.request.outputSize == Size(realWidth, realHeight)
  {
    if !s.imgLoaded || |s.srcPoints| < MaxPoints then
      Refused(MissingImageOrPoints)
    else if !libraryReady then
      Refused(LibraryNotReady)
    else
      Accepted(WarpRequest(QuadOf(s.srcPoints), RectangleQuad(realWidth, realHeight),
                           Size(realWidth, realHeight)))
  }

  /** The two eight-number arrays an accepted warp hands to the library. */
  lemma WarpArrays(s: State, libraryReady: bool, w: real, h: real)
    ensures var r := OnWarp(s, libraryReady, w, h);
      r.Accepted? ==>
        && Flatten(r.request.srcQuad)
             == [s.srcPoints[0].x, s.srcPoints[0].y, s.srcPoints[1].x, s.srcPoints[1].y,
                 s.srcPoints[2].x, s.srcPoints[2].y, s.srcPoints[3].x, s.srcPoints[3].y]
        && Flatten(r.request.dstQuad) == [0.0, 0.0, w, 0.0, w, h, 0.0, h]
  {
  }

  /** On a valid state the warp guard on the list length and the click guard on the counter
      agree: a warp is possible exactly when further clicks are refused. */
  lemma WarpReadyIffClicksRefused(s: State, client: Point, rectOrigin: Point, w: real, h: real)
    requires Valid(s)
    ensures OnWarp(s, true, w, h).Accepted? <==> OnClick(s, client, rectOrigin).response.TooMany?
  {
  }
}
