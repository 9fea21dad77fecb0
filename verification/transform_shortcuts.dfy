/** The zoom and pan shortcuts of `src/hooks/TransformViwer/useTransformViewerShortcuts.tsx`. */
module TransformViewerShortcuts {
  import KeyboardNavigation

  datatype PanDirection = PanLeft | PanRight | PanUp | PanDown

  /** Which callback one key press calls. */
  datatype ShortcutAction = ZoomInKey | ZoomOutKey | ResetKey | Pan(direction: PanDirection) | Ignore

  /** `e.target`: typing into a text field is never a shortcut. */
  datatype KeyTarget = InputElement | TextAreaElement | OtherElement

  function HandleKeyDown(key: string, isCurrentImage: bool, target: KeyTarget): (a: ShortcutAction)
    ensures !isCurrentImage || target != OtherElement ==> a == Ignore
    ensures a == ZoomInKey <==> isCurrentImage && target == OtherElement && (key == "+" || key == "=")
    ensures a == ZoomOutKey <==> isCurrentImage && target == OtherElement && key == "-"
    ensures a == ResetKey <==> isCurrentImage && target == OtherElement && key == "0"
    ensures a == Pan(PanLeft) <==> isCurrentImage && target == OtherElement && key == "ArrowLeft"
    ensures a == Pan(PanRight) <==> isCurrentImage && target == OtherElement && key == "ArrowRight"
    ensures a == Pan(PanUp) <==> isCurrentImage && target == OtherElement && key == "ArrowUp"
    ensures a == Pan(PanDown) <==> isCurrentImage && target == OtherElement && key == "ArrowDown"
  {
    var isTextField := target == InputElement || target == TextAreaElement;
    assert isTextField <==> target != OtherElement;
    if !isCurrentImage || isTextField then Ignore
    else if key == "+" || key == "=" then ZoomInKey
    else if key == "-" then ZoomOutKey
    else if key == "0" then ResetKey
    else if key == "ArrowLeft" then Pan(PanLeft)
    else if key == "ArrowRight" then Pan(PanRight)
    else if key == "ArrowUp" then Pan(PanUp)
    else if key == "ArrowDown" then Pan(PanDown)
    else Ignore
  }

  /**
   * Both listeners see every key press. While the current image is zoomed, a
   * horizontal arrow pans it and does not change the slide; unzoomed it does
   * both.
   */
  lemma ArrowKeyRouting(key: string, isZoomed: bool, expanded: bool, callbacks: KeyboardNavigation.Callbacks)
    requires key == "ArrowLeft" || key == "ArrowRight"
    ensures HandleKeyDown(key, true, OtherElement).Pan?
    ensures isZoomed ==> KeyboardNavigation.HandleKeyPress(key, isZoomed, expanded, callbacks, true) == KeyboardNavigation.NoAction
    ensures !isZoomed ==>
      (KeyboardNavigation.HandleKeyPress(key, isZoomed, expanded, callbacks, true) in {KeyboardNavigation.Prev, KeyboardNavigation.Next})
  {
  }
}
