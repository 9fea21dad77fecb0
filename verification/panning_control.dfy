/**
 * Pan-edge detection of `src/hooks/TransformViwer/usePanningControl.tsx`: the
 * three refs (last position, drag direction, reached boundary) updated on every
 * pan event, and the "swipe past the edge" hint. Positions, widths and scales
 * are reals (no floating-point rounding). The 16 ms debounce in front of the
 * handler is not part of this model.
 */
module PanningControl {
  import opened Wrappers
  import opened JsNumber

  datatype Side = Left | Right

  /** The right-most position: the content's left edge at the wrapper's left edge. */
  const MAX_POSITION_X: real := 0.0

  /** Distance, in pixels, within which a position counts as being at an edge. */
  const EDGE_THRESHOLD: real := 1.0

  /** The drag direction after an event at `positionX` following one at `lastX`. */
  function NextDirection(previous: Option<Side>, lastX: real, positionX: real): (d: Option<Side>)
    ensures positionX < lastX ==> d == Some(Left)
    ensures positionX > lastX ==> d == Some(Right)
    ensures positionX == lastX ==> d == previous
  {
    if positionX < lastX then Some(Left)
    else if positionX > lastX then Some(Right)
    else previous
  }

  /** `-(contentWidth - wrapperWidth)` with `contentWidth = wrapperWidth * scale`; not clamped to 0. */
  function MinPositionX(wrapperWidth: real, scale: real): (m: real)
    ensures scale == 1.0 ==> m == MAX_POSITION_X
    ensures wrapperWidth >= 0.0 && scale >= 1.0 ==> m <= MAX_POSITION_X
    ensures wrapperWidth > 0.0 && scale > 1.0 ==> m < MAX_POSITION_X
    ensures wrapperWidth > 0.0 && scale < 1.0 ==> m > MAX_POSITION_X
  {
    var contentWidth := wrapperWidth * scale;
    -(contentWidth - wrapperWidth)
  }

  /** The edge test: "right" when within a pixel of 0, else "left" when within a pixel of the minimum. */
  function BoundaryAt(positionX: real, minPositionX: real): (b: Option<Side>)
    ensures b == Some(Right) <==> RealAbs(positionX - MAX_POSITION_X) < EDGE_THRESHOLD
    ensures b == Some(Left) <==>
      RealAbs(positionX - MAX_POSITION_X) >= EDGE_THRESHOLD && RealAbs(positionX - minPositionX) < EDGE_THRESHOLD
    ensures b == None <==>
      RealAbs(positionX - MAX_POSITION_X) >= EDGE_THRESHOLD && RealAbs(positionX - minPositionX) >= EDGE_THRESHOLD
  {
    var isAtRightEdge := RealAbs(positionX - MAX_POSITION_X) < EDGE_THRESHOLD;
    var isAtLeftEdge := RealAbs(positionX - minPositionX) < EDGE_THRESHOLD;
    if isAtRightEdge then Some(Right)
    else if isAtLeftEdge then Some(Left)
    else None
  }

  /** When the content is at least two pixels wider than the wrapper, no position is near both edges. */
  lemma EdgesApart(positionX: real, wrapperWidth: real, scale: real)
    requires wrapperWidth * scale - wrapperWidth >= 2.0 * EDGE_THRESHOLD
    ensures !(RealAbs(positionX - MAX_POSITION_X) < EDGE_THRESHOLD &&
              RealAbs(positionX - MinPositionX(wrapperWidth, scale)) < EDGE_THRESHOLD)
  {
  }

  /** Unzoomed content (scale 1) has both edges at 0, and the tie goes to "right". */
  lemma RightWinsAtScaleOne(positionX: real, wrapperWidth: real)
    requires RealAbs(positionX) < EDGE_THRESHOLD
    ensures BoundaryAt(positionX, MinPositionX(wrapperWidth, 1.0)) == Some(Right)
  {
  }

  /** `isSwipingBeyondBoundary`: the drag heads toward the edge already reached. */
  function SwipingBeyondBoundary(boundary: Option<Side>, direction: Option<Side>): (b: bool)
    ensures b <==> boundary.Some? && boundary == direction
  {
    assert boundary.Some? ==> boundary.value.Left? || boundary.value.Right?;
    (boundary == Some(Right) && direction == Some(Right)) || (boundary == Some(Left) && direction == Some(Left))
  }

  /** Dragging right while within a pixel of the right edge always asks for the hint. */
  lemma PushingPastRightEdge(previous: Option<Side>, lastX: real, positionX: real, minPositionX: real)
    requires positionX > lastX && RealAbs(positionX) < EDGE_THRESHOLD
    ensures SwipingBeyondBoundary(BoundaryAt(positionX, minPositionX), NextDirection(previous, lastX, positionX))
  {
  }

  /** Dragging left while at the left edge (and away from the right one) always asks for the hint. */
  lemma PushingPastLeftEdge(previous: Option<Side>, lastX: real, positionX: real, minPositionX: real)
    requires positionX < lastX && RealAbs(positionX) >= EDGE_THRESHOLD
    requires RealAbs(positionX - minPositionX) < EDGE_THRESHOLD
    ensures SwipingBeyondBoundary(BoundaryAt(positionX, minPositionX), NextDirection(previous, lastX, positionX))
  {
  }

  /** After a stop, an event that does not move cannot ask for the hint. */
  lemma NoHintWithoutMovementAfterStop(lastX: real, minPositionX: real)
    ensures !SwipingBeyondBoundary(BoundaryAt(lastX, minPositionX), NextDirection(None, lastX, lastX))
  {
  }

  /** The hook's refs. */
  class PanningControl {
    var lastX: real
    var lastY: real
    var panDirection: Option<Side>
    var boundaryReached: Option<Side>

    constructor ()
      ensures lastX == 0.0 && lastY == 0.0 && panDirection == None && boundaryReached == None
    {
      lastX, lastY := 0.0, 0.0;
      panDirection := None;
      boundaryReached := None;
    }

    /**
     * `handlePanning`: `wrapperWidth` is the wrapper element's `offsetWidth`,
     * `None` when the element is missing. Returns whether `showSwipeMessage`
     * is called.
     */
    method HandlePanning(isZoomed: bool, wrapperWidth: Option<real>, positionX: real, positionY: real, scale: real)
      returns (showHint: bool)
      modifies this
      ensures !isZoomed || wrapperWidth.None? ==>
        !showHint && lastX == old(lastX) && lastY == old(lastY) &&
        panDirection == old(panDirection) && boundaryReached == old(boundaryReached)
      ensures isZoomed && wrapperWidth.Some? ==>
        panDirection == NextDirection(old(panDirection), old(lastX), positionX) &&
        boundaryReached == BoundaryAt(positionX, MinPositionX(wrapperWidth.value, scale)) &&
        showHint == SwipingBeyondBoundary(boundaryReached, panDirection) &&
        lastX == positionX && lastY == positionY
    {
      showHint := false;
      if !isZoomed || wrapperWidth.None? {
        return;
      }
      if positionX < lastX {
        panDirection := Some(Left);
      } else if positionX > lastX {
        panDirection := Some(Right);
      }
      var width := wrapperWidth.value;
      var contentWidth := width * scale;
      var maxPositionX := MAX_POSITION_X;
      var minPositionX := -(contentWidth - width);
      var isAtRightEdge := RealAbs(positionX - maxPositionX) < EDGE_THRESHOLD;
      var isAtLeftEdge := RealAbs(positionX - minPositionX) < EDGE_THRESHOLD;
      if isAtRightEdge {
        boundaryReached := Some(Right);
      } else if isAtLeftEdge {
        boundaryReached := Some(Left);
      } else {
        boundaryReached := None;
      }
      var isSwipingBeyondBoundary :=
        (boundaryReached == Some(Right) && panDirection == Some(Right)) ||
        (boundaryReached == Some(Left) && panDirection == Some(Left));
      if isSwipingBeyondBoundary {
        showHint := true;
      }
      lastX, lastY := positionX, positionY;
    }

    /** `handlePanningStop`: forgets the drag direction only. */
    method HandlePanningStop()
      modifies this
      ensures panDirection == None
      ensures lastX == old(lastX) && lastY == old(lastY) && boundaryReached == old(boundaryReached)
    {
      panDirection := None;
    }
  }
}
