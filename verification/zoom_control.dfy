/**
 * The zoom handlers of `src/hooks/TransformViwer/useZoomControl.tsx`. The
 * zoom library behind `transformRef` is reduced to its current state (or
 * `None` while no viewer is attached) and to the list of commands the hook
 * sends it; the 100 ms timers the zoom buttons start are a queue of pending
 * checks that fire in the order they were started. The zoomed flag the
 * handlers write is the context's (`ZoomScreenReaderContext.Provider`).
 */
module ZoomControl {
  import opened Wrappers
  import ZoomScreenReaderContext

  /** The step `zoomIn` / `zoomOut` are called with. */
  const ZOOM_STEP: real := 0.5

  /** Above this scale an image that stopped moving counts as zoomed. */
  const ZOOMED_THRESHOLD: real := 1.05

  /** Duration, in seconds, of the animated `setTransform`. */
  const SET_TRANSFORM_DURATION: real := 0.2

  /** `handleZoomChange`'s rule, applied while the zoom gesture is under way. */
  predicate ZoomedWhileChanging(scale: real)
  {
    scale > 1.0
  }

  /** `handleZoomStop`'s rule and the settle timers' rule. */
  predicate ZoomedWhenStopped(scale: real)
  {
    scale > ZOOMED_THRESHOLD
  }

  /** `handleTransformed`'s rule for the slider's touch dragging. */
  predicate TouchMoveAllowed(scale: real)
  {
    scale <= ZOOMED_THRESHOLD
  }

  /** Slider dragging is allowed exactly when a stopped image does not count as zoomed. */
  lemma TouchMoveIffNotZoomed(scale: real)
    ensures TouchMoveAllowed(scale) <==> !ZoomedWhenStopped(scale)
  {
  }

  /**
   * The two rules differ only on the band (1, 1.05]: there a gesture in
   * progress reports "zoomed" and the stop reports "not zoomed"; everywhere
   * else they agree.
   */
  lemma ZoomHysteresis(scale: real)
    ensures ZoomedWhenStopped(scale) ==> ZoomedWhileChanging(scale)
    ensures ZoomedWhileChanging(scale) != ZoomedWhenStopped(scale) <==> 1.0 < scale <= ZOOMED_THRESHOLD
  {
  }

  datatype TransformState = TransformState(scale: real, positionX: real, positionY: real)

  /** The calls the hook makes on the zoom library. */
  datatype TransformCommand =
    | ZoomIn(step: real)
    | ZoomOut(step: real)
    | ResetTransform
    | SetTransform(positionX: real, positionY: real, scale: real, duration: real)

  /** What a pending 100 ms timer does when it fires. */
  datatype SettleCheck = RecheckScale | ForceNotZoomed

  /** One instance of the hook, on one slide. */
  class ZoomControl {
    const isCurrentImage: bool
    /** The provider that `useZoomScreenReader` returns. */
    const context: ZoomScreenReaderContext.Provider
    const hasSwiper: bool
    /** `swiper.allowTouchMove`. */
    var allowTouchMove: bool
    /** `transformRef.current` and its state. */
    var transform: Option<TransformState>
    /** Calls sent to the zoom library, oldest first. */
    var commands: seq<TransformCommand>
    /** Timers started and not yet fired, oldest first. */
    var pendingSettles: seq<SettleCheck>

    constructor (isCurrentImage: bool, context: ZoomScreenReaderContext.Provider, hasSwiper: bool, allowTouchMove: bool)
      ensures this.isCurrentImage == isCurrentImage && this.context == context && this.hasSwiper == hasSwiper
      ensures this.allowTouchMove == allowTouchMove
      ensures transform == None && commands == [] && pendingSettles == []
    {
      this.isCurrentImage := isCurrentImage;
      this.context := context;
      this.hasSwiper := hasSwiper;
      this.allowTouchMove := allowTouchMove;
      transform := None;
      commands := [];
      pendingSettles := [];
    }

    /** The library attaches, detaches or moves the viewer. */
    method OnLibraryState(state: Option<TransformState>)
      modifies this`transform
      ensures transform == state
    {
      transform := state;
    }

    /** `handleZoomChange`. */
    method HandleZoomChange(scale: real)
      modifies context`isZoomed
      ensures isCurrentImage ==> context.isZoomed == ZoomedWhileChanging(scale)
      ensures !isCurrentImage ==> context.isZoomed == old(context.isZoomed)
    {
      if !isCurrentImage {
        return;
      }
      context.SetIsZoomed(scale > 1.0);
    }

    /** `handleZoomStop`. */
    method HandleZoomStop(scale: real)
      modifies context`isZoomed
      ensures isCurrentImage ==> context.isZoomed == ZoomedWhenStopped(scale)
      ensures !isCurrentImage ==> context.isZoomed == old(context.isZoomed)
    {
      if !isCurrentImage {
        return;
      }
      context.SetIsZoomed(scale > ZOOMED_THRESHOLD);
    }

    /** `handleTransformed`. */
    method HandleTransformed(scale: real)
      modifies this`allowTouchMove
      ensures isCurrentImage && hasSwiper ==> allowTouchMove == TouchMoveAllowed(scale)
      ensures !(isCurrentImage && hasSwiper) ==> allowTouchMove == old(allowTouchMove)
    {
      if !isCurrentImage {
        return;
      }
      if hasSwiper {
        allowTouchMove := scale <= ZOOMED_THRESHOLD;
      }
    }

    /** `customZoomIn`: zooms by half a step if a viewer is attached and always starts a recheck timer. */
    method CustomZoomIn()
      modifies this`commands, this`pendingSettles
      ensures isCurrentImage ==>
        commands == old(commands) + (if transform.Some? then [ZoomIn(ZOOM_STEP)] else []) &&
        pendingSettles == old(pendingSettles) + [RecheckScale]
      ensures !isCurrentImage ==> commands == old(commands) && pendingSettles == old(pendingSettles)
    {
      if !isCurrentImage {
        return;
      }
      if transform.Some? {
        commands := commands + [ZoomIn(ZOOM_STEP)];
      }
      pendingSettles := pendingSettles + [RecheckScale];
    }

    /** `customZoomOut`. */
    method CustomZoomOut()
      modifies this`commands, this`pendingSettles
      ensures isCurrentImage ==>
        commands == old(commands) + (if transform.Some? then [ZoomOut(ZOOM_STEP)] else []) &&
        pendingSettles == old(pendingSettles) + [RecheckScale]
      ensures !isCurrentImage ==> commands == old(commands) && pendingSettles == old(pendingSettles)
    {
      if !isCurrentImage {
        return;
      }
      if transform.Some? {
        commands := commands + [ZoomOut(ZOOM_STEP)];
      }
      pendingSettles := pendingSettles + [RecheckScale];
    }

    /** `customResetTransform`: resets, then a timer that clears the zoomed flag unconditionally. */
    method CustomResetTransform()
      modifies this`commands, this`pendingSettles
      ensures isCurrentImage ==>
        commands == old(commands) + (if transform.Some? then [ResetTransform] else []) &&
        pendingSettles == old(pendingSettles) + [ForceNotZoomed]
      ensures !isCurrentImage ==> commands == old(commands) && pendingSettles == old(pendingSettles)
    {
      if !isCurrentImage {
        return;
      }
      if transform.Some? {
        commands := commands + [ResetTransform];
      }
      pendingSettles := pendingSettles + [ForceNotZoomed];
    }

    /** `customSetTransform`: moves to a position at the current scale, animated over 0.2 s. */
    method CustomSetTransform(positionX: real, positionY: real)
      modifies this`commands
      ensures isCurrentImage && transform.Some? ==>
        commands == old(commands) + [SetTransform(positionX, positionY, transform.value.scale, SET_TRANSFORM_DURATION)]
      ensures !(isCurrentImage && transform.Some?) ==> commands == old(commands)
    {
      if !isCurrentImage {
        return;
      }
      if transform.Some? {
        commands := commands + [SetTransform(positionX, positionY, transform.value.scale, SET_TRANSFORM_DURATION)];
      }
    }

    /**
     * The oldest pending timer fires. A recheck reads the scale at firing
     * time, not at the click; a recheck with no viewer attached does nothing.
     */
    method SettleTimerFires()
      modifies this`pendingSettles, context`isZoomed
      ensures old(pendingSettles) == [] ==> pendingSettles == [] && context.isZoomed == old(context.isZoomed)
      ensures old(pendingSettles) != [] ==> pendingSettles == old(pendingSettles)[1..]
      ensures old(pendingSettles) != [] && old(pendingSettles)[0] == ForceNotZoomed ==> !context.isZoomed
      ensures old(pendingSettles) != [] && old(pendingSettles)[0] == RecheckScale ==>
        context.isZoomed == (if transform.Some? then ZoomedWhenStopped(transform.value.scale) else old(context.isZoomed))
    {
      if pendingSettles == [] {
        return;
      }
      var check := pendingSettles[0];
      pendingSettles := pendingSettles[1..];
      match check
      case ForceNotZoomed =>
        context.SetIsZoomed(false);
      case RecheckScale =>
        if transform.Some? {
          context.SetIsZoomed(transform.value.scale > ZOOMED_THRESHOLD);
        }
    }
  }
}
