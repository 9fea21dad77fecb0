/**
 * The zoom / screen-reader context: the two `useState` cells that
 * `ZoomScreenReaderProvider` (src/context/ZoomScreenReaderProvider.tsx) holds
 * and hands down through `useZoomScreenReader`. The viewer mounts one provider
 * around the gallery, so every zoom hook and the keyboard handler share one
 * instance. It is a different cell from the global store in
 * `ZoomScreenReaderStore`: writing one leaves the other unchanged.
 */
module ZoomScreenReaderContext {
  class Provider {
    var isZoomed: bool
    var screenReaderEnabled: bool

    /** Both `useState(false)` cells at mount. */
    constructor ()
      ensures !isZoomed && !screenReaderEnabled
    {
      isZoomed, screenReaderEnabled := false, false;
    }

    /** The `setIsZoomed` setter of the context value. */
    method SetIsZoomed(value: bool)
      modifies this`isZoomed
      ensures isZoomed == value
      ensures screenReaderEnabled == old(screenReaderEnabled)
    {
      isZoomed := value;
    }

    /** The `setScreenReaderEnabled` setter of the context value. */
    method SetScreenReaderEnabled(value: bool)
      modifies this`screenReaderEnabled
      ensures screenReaderEnabled == value
      ensures isZoomed == old(isZoomed)
    {
      screenReaderEnabled := value;
    }
  }
}
