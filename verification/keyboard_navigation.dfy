/**
 * The window key handler of `src/hooks/ImageViewer/useKeyboardNavigation.tsx`.
 * An optional callback the caller did not pass is a `false` flag in
 * `Callbacks`; `isZoomed` is the zoom context's flag
 * (`ZoomScreenReaderContext.Provider`) when the handler was installed.
 */
module KeyboardNavigation {
  /** Which callback one key press calls. */
  datatype NavAction = Prev | Next | Fullscreen | EscapeExpanded | ToggleThumbnails | NoAction

  datatype Callbacks = Callbacks(hasFullscreen: bool, hasEscapeExpanded: bool, hasSetThumbnailExpanded: bool)

  function HandleKeyPress(key: string, isZoomed: bool, isThumbnailExpanded: bool, callbacks: Callbacks, enabled: bool)
    : (a: NavAction)
    ensures a == Prev <==> enabled && key == "ArrowLeft" && !isZoomed
    ensures a == Next <==> enabled && key == "ArrowRight" && !isZoomed
    ensures a == Fullscreen <==> enabled && key == "f" && callbacks.hasFullscreen
    ensures a == EscapeExpanded <==>
      enabled && key == "Escape" && isThumbnailExpanded && callbacks.hasEscapeExpanded
    ensures a == ToggleThumbnails <==> enabled && key == "t" && callbacks.hasSetThumbnailExpanded
  {
    if !enabled then NoAction
    else if key == "ArrowLeft" then (if isZoomed then NoAction else Prev)
    else if key == "ArrowRight" then (if isZoomed then NoAction else Next)
    else if key == "f" && callbacks.hasFullscreen then Fullscreen
    else if key == "Escape" && isThumbnailExpanded && callbacks.hasEscapeExpanded then EscapeExpanded
    else if key == "t" && callbacks.hasSetThumbnailExpanded then ToggleThumbnails
    else NoAction
  }

  /** The thumbnail panel flag after an action: `t` flips it through a functional update. */
  function PanelAfter(a: NavAction, isThumbnailExpanded: bool): (expanded: bool)
    ensures a == ToggleThumbnails ==> expanded != isThumbnailExpanded
    ensures a != ToggleThumbnails ==> expanded == isThumbnailExpanded
  {
    if a == ToggleThumbnails then !isThumbnailExpanded else isThumbnailExpanded
  }

  /** Pressing `t` twice leaves the panel as it was, with or without the callback. */
  lemma ToggleTwiceRestores(isZoomed: bool, expanded: bool, callbacks: Callbacks, enabled: bool)
    ensures
      var once := PanelAfter(HandleKeyPress("t", isZoomed, expanded, callbacks, enabled), expanded);
      PanelAfter(HandleKeyPress("t", isZoomed, once, callbacks, enabled), once) == expanded
  {
  }

  /** While zoomed, the arrow keys never change the slide. */
  lemma ZoomedArrowsDoNothing(key: string, expanded: bool, callbacks: Callbacks, enabled: bool)
    requires key == "ArrowLeft" || key == "ArrowRight"
    ensures HandleKeyPress(key, true, expanded, callbacks, enabled) == NoAction
  {
  }
}

/** The older handler of `src/hooks/useKeyboardNavigation.tsx`: no zoom gate and no `t` key. */
module LegacyKeyboardNavigation {
  import opened KeyboardNavigation

  function HandleKeyPress(key: string, isExpanded: bool, hasFullscreen: bool, hasEscapeExpanded: bool, enabled: bool)
    : (a: NavAction)
    ensures a != ToggleThumbnails
    ensures a == Prev <==> enabled && key == "ArrowLeft"
    ensures a == Next <==> enabled && key == "ArrowRight"
    ensures a == Fullscreen <==> enabled && key == "f" && hasFullscreen
    ensures a == EscapeExpanded <==> enabled && key == "Escape" && isExpanded && hasEscapeExpanded
  {
    if !enabled then NoAction
    else if key == "ArrowLeft" then Prev
    else if key == "ArrowRight" then Next
    else if key == "f" && hasFullscreen then Fullscreen
    else if key == "Escape" && isExpanded && hasEscapeExpanded then EscapeExpanded
    else NoAction
  }

  /** Unzoomed and on any key but `t`, the two handlers call the same callback. */
  lemma AgreesWithCurrentHandler(key: string, expanded: bool, callbacks: Callbacks, enabled: bool)
    requires key != "t"
    ensures HandleKeyPress(key, expanded, callbacks.hasFullscreen, callbacks.hasEscapeExpanded, enabled)
         == KeyboardNavigation.HandleKeyPress(key, false, expanded, callbacks, enabled)
  {
  }
}
