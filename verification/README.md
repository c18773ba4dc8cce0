# Corner selection and warp gate of Curate2D-Demo

Curate2D-Demo is a browser page. The user loads a photo, clicks four corners of a planar
region on it, types a real-world width and height, and presses "Warp & Show in 3D". The
page then hands the four clicked corners and a W×H destination rectangle to OpenCV.js for a
perspective warp, and shows the result on a plane in a three.js scene.

This project models the part of `main.js` that is plain sequential logic:

- the selection state: an image-loaded flag, a click counter, and the clicked points in click order;
- the three events that touch it:
  - an image finishing loading resets the selection;
  - a canvas click appends a canvas-relative point, but only while an image is loaded and fewer than four points exist;
  - the warp button is refused unless an image is loaded, four points exist and the library is ready.
- on an accepted warp, the arguments the page hands to the library:
  - the source quadrilateral: the first four points, in click order;
  - the destination rectangle `(0,0), (W,0), (W,H), (0,H)`;
  - the output size W×H.

Modules:

- `Geometry` (`geometry.dfy`): points, quadrilaterals, the canvas-relative offset, the destination rectangle, and the interleaved x/y layout of a 4×1 two-channel matrix.
- `Selection` (`selection.dfy`): the state record, its invariant `Valid`, and the load and click transitions.
- `Warp` (`warp.dfy`): the warp gate and the request it builds.
- `Session` (`session.dfy`): events, running a history of events, and a reference semantics to compare against. The reference has no guards and no counter. It takes "the first four clicks since the last load, nothing before the first load". The lemmas relate the state machine to it.

## Model

| member | source | states |
|---|---|---|
| Geometry.CanvasRelative | main.js:50-54 | The stored point is the pointer position minus the canvas rectangle's top-left corner. Adding the corner back gives the pointer position again. |
| Geometry.QuadOf | main.js:100-105 | The source quadrilateral's corners are exactly the first four points, in their list order. |
| Geometry.RectangleQuad | main.js:107-113 | The destination has one corner at the origin and the opposite corner at (W,H). Its edges are axis-aligned and its signed area is W·H. For non-negative W and H the corners run top-left, top-right, bottom-right, bottom-left. |
| Geometry.Flatten | main.js:100-113 | A quadrilateral is packed as eight numbers. Entry 2i is corner i's x and entry 2i+1 is its y. |
| Geometry.Unflatten | main.js:100-113 | Reading eight interleaved numbers back as corners and packing them again gives the same eight numbers. |
| Geometry.UnflattenFlatten | main.js:100-113 | Packing loses nothing: unpacking a packed quadrilateral returns it. |
| Selection.OnImageLoad | main.js:33-40 | Whatever the prior state, after a load the image is loaded, the counter is 0 and the point list is empty. |
| Selection.OnClick | main.js:43-68 | A click is ignored exactly when no image is loaded. It is refused exactly when an image is loaded and the counter is at least 4. Ignored and refused clicks change nothing. An accepted click appends the canvas-relative point at the end and increments the counter by one. Its marker is numbered with the new counter. Validity is preserved. |
| Warp.OnWarp | main.js:76-128 | A warp is accepted exactly when an image is loaded, at least four points exist and the library is ready. The image/points refusal takes precedence over the library refusal. When accepted, the source corners are the first four points in click order, the destination is the W×H rectangle, and the output size is W×H. |
| Warp.WarpArrays | main.js:100-113 | On an accepted warp the source array is the first four points' x and y, interleaved in click order. The destination array is 0, 0, W, 0, W, H, 0, H. |
| Warp.WarpReadyIffClicksRefused | main.js:45-80 | The click guard reads the counter and the warp guard reads the list length. On a valid state they agree: a warp can pass the first guard exactly when further clicks are refused. |
| Session.RunPreservesValid | main.js:16-57 | Across any events, the counter equals the number of stored points and never exceeds 4. |
| Session.RunMatchesExpected | main.js:16-73 | From the initial state, any history leaves the reference state. Nothing is selected before the first load. After it, the loaded flag is set and the selection is the first four clicks since the last load, with the counter equal to their number. |
| Session.ClicksBeforeLoadIgnored | main.js:43-44 | Clicks that come before any image load change nothing. |
| Session.WarpUsesFirstFourClicks | main.js:76-105 | After any history, a warp is accepted exactly when there was a load, at least four clicks followed the last one, and the library is ready. The source quadrilateral is then the first four of those clicks, in click order. |
| Session.WarpsLeaveSelectionAlone | main.js:76-141 | Any number of warp presses leaves the selection state exactly as it was. |
| Session.SelectionAppendOnly | main.js:51-57 | Between loads the point list only grows at its end. Earlier points stay in place and in order, and the loaded flag does not change. |
| Session.FrozenUntilReload | main.js:43-48 | Once four points are held, any clicks and warps leave the state unchanged until the next load, and every such click is refused. |
| Session.LoadForgetsHistory | main.js:33-40 | A load makes earlier history irrelevant. A history that contains a load ends in the same state as the part from that load on, started from any state. |

What the code does and does not do:

- The source quadrilateral is the points in click order. The code does not reorder them into top-left, top-right, bottom-right, bottom-left. Only the destination rectangle has that fixed order. `RectangleQuad` proves that order for non-negative W and H.
- The code does not check that W and H are positive. `OnWarp` accepts any values, and a zero or negative size gives a degenerate or mirrored destination rectangle.
- The code has no dragging of corners and no default rectangle. Points are added only by clicks.

## Left out

- Reading the image file: the file picker, `FileReader` and data-URL decoding are asynchronous browser I/O. "Image loaded" is one discrete event.
- Canvas drawing: drawing the photo, the red marker, the yellow label text and `imshow` are rendering. The marker's position and number are kept, the pixels are not.
- Canvas sizes: the photo canvas is resized to the image, and the result canvas is set to W×H. Both are browser-side and only the W×H value is modelled. The browser's conversion of these sizes to integers is not modelled.
- `getBoundingClientRect`: the pointer position and the canvas rectangle's corner are inputs of the click event.
- Library readiness (`typeof cv`): a boolean input of the warp event.
- Reading W and H with `parseFloat`: W and H are given real values. NaN and infinities are not modelled.
- The OpenCV calls (`imread`, `matFromArray`, `getPerspectiveTransform`, `warpPerspective`, the `.delete()` calls): foreign code over floating-point image data. The model stops at the arguments handed to `getPerspectiveTransform` and `warpPerspective`. No homography is solved here.
- Geometry.Flatten: the library matrix stores 32-bit floats. The model keeps exact reals, so the rounding when the coordinates are packed is not modelled.
- Canvas pixel grid: a stored point is in CSS pixels from the corner of the canvas's bounding rectangle. The model does not relate it to the canvas's own pixel grid, which the image library reads. The two agree only when the canvas is shown at 1:1 scale with no border.
- Geometry.CanvasRelative: the subtraction is exact over the reals. IEEE double rounding is not modelled.
- The console message logged at the fourth click: diagnostics only.
- The three.js scene, camera, renderer and animation loop (`initThree`, `renderThreeScene`, `animate`): 3-D rendering with no state of the selection.
