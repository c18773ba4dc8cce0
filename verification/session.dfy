/** The page as an event-driven state machine: image loads, canvas clicks and warp-button
    presses handled one at a time, and what any history of such events leaves behind. */
module Session {
  import opened Geometry
  import opened Selection
  import opened Warp

  datatype Event =
    | ImageLoaded
    | CanvasClick(client: Point, rectOrigin: Point)
    | WarpPressed(libraryReady: bool, realWidth: real, realHeight: real)

  datatype Response = Loaded | Clicked(click: ClickResponse) | Warped(outcome: WarpOutcome)

  datatype StepResult = StepResult(next: State, response: Response)

  /** Handles one event. */
  function Step(s: State, e: Event): StepResult {
    match e
    case ImageLoaded => StepResult(OnImageLoad(s), Loaded)
    case CanvasClick(client, rectOrigin) =>
      var c := OnClick(s, client, rectOrigin);
      StepResult(c.next, Clicked(c.response))
    case WarpPressed(ready, w, h) => StepResult(s, Warped(OnWarp(s, ready, w, h)))
  }

  /** The state after handling `evs` in order, starting from `s`. */
  function Run(s: State, evs: seq<Event>): State
    decreases |evs|
  {
    if evs == [] then s else Step(Run(s, evs[..|evs| - 1]), evs[|evs| - 1]).next
  }

  function Min(a: int, b: int): int {
    if a <= b then a else b
  }

  /** Reference semantics, without guards or counters: the canvas-relative positions of all
      clicks after the last image load, whether or not the page accepted them. */
  function ClicksSinceLoad(evs: seq<Event>): seq<Point>
    decreases |evs|
  {
    if evs == [] then []
    else
      var rest := ClicksSinceLoad(evs[..|evs| - 1]);
      match evs[|evs| - 1]
      case ImageLoaded => []
      case CanvasClick(client, rectOrigin) => rest + [CanvasRelative(client, rectOrigin)]
      case WarpPressed(_, _, _) => rest
  }

  /** Reference semantics: nothing is selected before the first image load; afterwards the
      selection is the first four clicks since the last load. */
  function Expected(evs: seq<Event>): State {
    if ImageLoaded !in evs then Initial
    else
      var clicks := ClicksSinceLoad(evs);
      var k := Min(|clicks|, MaxPoints);
      State(true, k, clicks[..k])
  }

  /** Split of a non-empty history into its prefix and last event. */
  lemma LastSplit(evs: seq<Event>)
    requires evs != []
    ensures evs == evs[..|evs| - 1] + [evs[|evs| - 1]]
    ensures forall e :: e in evs <==> e in evs[..|evs| - 1] || e == evs[|evs| - 1]
  {
  }

  /** The counter always equals the number of stored points and never exceeds four, whatever
      events arrive. */
  lemma {:induction false} RunPreservesValid(s: State, evs: seq<Event>)
    requires Valid(s)
    ensures Valid(Run(s, evs))
    decreases |evs|
  {
    if evs != [] {
      RunPreservesValid(s, evs[..|evs| - 1]);
    }
  }

  /** From the initial page state, every history leaves exactly the reference state. */
  lemma {:induction false} RunMatchesExpected(evs: seq<Event>)
    ensures Run(Initial, evs) == Expected(evs)
    decreases |evs|
  {
    if evs != [] {
      var pre, e := evs[..|evs| - 1], evs[|evs| - 1];
      RunMatchesExpected(pre);
      LastSplit(evs);
      match e
      case ImageLoaded =>
      case WarpPressed(_, _, _) =>
      case CanvasClick(client, rectOrigin) =>
        if ImageLoaded in pre {
          var clicks := ClicksSinceLoad(pre);
          var p := CanvasRelative(client, rectOrigin);
          assert ClicksSinceLoad(evs) == clicks + [p];
          if |clicks| < MaxPoints {
            assert (clicks + [p])[..|clicks| + 1] == clicks[..|clicks|] + [p];
          } else {
            assert (clicks + [p])[..MaxPoints] == clicks[..MaxPoints];
          }
        }
    }
  }

  /** Clicks before any image has loaded change nothing. */
  lemma {:induction false} ClicksBeforeLoadIgnored(evs: seq<Event>)
    requires ImageLoaded !in evs
    ensures Run(Initial, evs) == Initial
  {
    RunMatchesExpected(evs);
  }

  /** A warp on the state left by any history is accepted exactly when an image has loaded,
      at least four clicks followed the last load and the library is ready; its source
      quadrilateral is then the first four of those clicks, in click order. */
  lemma WarpUsesFirstFourClicks(evs: seq<Event>, ready: bool, w: real, h: real)
    ensures var r := OnWarp(Run(Initial, evs), ready, w, h);
      && (r.Accepted? <==> ImageLoaded in evs && |ClicksSinceLoad(evs)| >= MaxPoints && ready)
      && (r.Accepted? ==> r.request.srcQuad.Corners() == ClicksSinceLoad(evs)[..MaxPoints])
  {
    RunMatchesExpected(evs);
  }

  /** Warp presses alone never change the selection. */
  lemma {:induction false} WarpsLeaveSelectionAlone(s: State, evs: seq<Event>)
    requires forall i :: 0 <= i < |evs| ==> evs[i].WarpPressed?
    ensures Run(s, evs) == s
    decreases |evs|
  {
    if evs != [] {
      WarpsLeaveSelectionAlone(s, evs[..|evs| - 1]);
    }
  }

  /** Between loads the selection only grows at its end: earlier points stay, in order, and
      the loaded flag does not change. */
  lemma {:induction false} SelectionAppendOnly(s: State, evs: seq<Event>)
    requires ImageLoaded !in evs
    ensures Run(s, evs).imgLoaded == s.imgLoaded
    ensures |s.srcPoints| <= |Run(s, evs).srcPoints|
    ensures Run(s, evs).srcPoints[..|s.srcPoints|] == s.srcPoints
    decreases |evs|
  {
    if evs != [] {
      LastSplit(evs);
      var pre := evs[..|evs| - 1];
      SelectionAppendOnly(s, pre);
      var t := Run(s, pre);
      assert t.srcPoints[..|s.srcPoints|] == s.srcPoints;
      var u := Run(s, evs);
      assert u.srcPoints[..|t.srcPoints|] == t.srcPoints;
      assert u.srcPoints[..|s.srcPoints|] == t.srcPoints[..|s.srcPoints|];
    }
  }

  /** Once four points are held, clicks and warps leave the state as it is (each click is
      refused) until the next image load. */
  lemma {:induction false} FrozenUntilReload(s: State, evs: seq<Event>)
    requires Valid(s) && s.imgLoaded && s.clickCount == MaxPoints
    requires ImageLoaded !in evs
    ensures Run(s, evs) == s
    ensures forall i :: 0 <= i < |evs| && evs[i].CanvasClick? ==>
      Step(Run(s, evs[..i]), evs[i]).response == Clicked(TooMany)
    decreases |evs|
  {
    if evs != [] {
      LastSplit(evs);
      FrozenUntilReload(s, evs[..|evs| - 1]);
      forall i | 0 <= i < |evs| && evs[i].CanvasClick?
        ensures Step(Run(s, evs[..i]), evs[i]).response == Clicked(TooMany)
      {
        assert evs[..i] == evs[..|evs| - 1][..i];
      }
    }
  }

  /** A load makes everything before it irrelevant: the state after a history that contains
      a load is the state after the part from that load on, started from anywhere. */
  lemma {:induction false} LoadForgetsHistory(s: State, t: State, before: seq<Event>, after: seq<Event>)
    ensures Run(s, before + [ImageLoaded] + after) == Run(t, [ImageLoaded] + after)
    decreases |after|
  {
    var evs, evs' := before + [ImageLoaded] + after, [ImageLoaded] + after;
    if after == [] {
      assert evs[..|evs| - 1] == before;
      assert evs'[..|evs'| - 1] == [];
    } else {
      var pre := after[..|after| - 1];
      LoadForgetsHistory(s, t, before, pre);
      assert evs[..|evs| - 1] == before + [ImageLoaded] + pre;
      assert evs'[..|evs'| - 1] == [ImageLoaded] + pre;
    }
  }
}
