/** The global zoom / screen-reader store of `src/store/useZoomScreenReaderStore.ts`. */
module ZoomScreenReaderStore {
  class Store {
    var isZoomed: bool
    var screenReaderEnabled: bool

    constructor ()
      ensures !isZoomed && !screenReaderEnabled
    {
      isZoomed, screenReaderEnabled := false, false;
    }

    /** `setIsZoomed`: overwrites one flag and leaves the other alone. */
    method SetIsZoomed(value: bool)
      modifies this`isZoomed
      ensures isZoomed == value
      ensures screenReaderEnabled == old(screenReaderEnabled)
    {
      isZoomed := value;
    }

    /** `setScreenReaderEnabled`: overwrites one flag and leaves the other alone. */
    method SetScreenReaderEnabled(value: bool)
      modifies this`screenReaderEnabled
      ensures screenReaderEnabled == value
      ensures isZoomed == old(isZoomed)
    {
      screenReaderEnabled := value;
    }
  }
}
