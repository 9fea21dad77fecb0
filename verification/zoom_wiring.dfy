/**
 * How the zoomed flag travels between hooks. The zoom handlers write the
 * context's flag (`useZoomControl` through `useZoomScreenReader`), while the
 * swipe hint reads the global store's (`useSwipeMessage`), which none of the
 * modelled code writes. The two scenarios below are the same gesture: the
 * current image is pinched to scale 2, then the pan hits an edge one second
 * after mount.
 */
module ZoomWiring {
  import ZoomScreenReaderContext
  import ZoomScreenReaderStore
  import ZoomControl
  import SwipeMessage

  /** As wired: the context says zoomed, the store still says not, and the hint is refused. */
  method ZoomedSwipeAsWritten() returns (contextZoomed: bool, storeZoomed: bool, accepted: bool)
    ensures contextZoomed && !storeZoomed && !accepted
  {
    var context := new ZoomScreenReaderContext.Provider();
    var store := new ZoomScreenReaderStore.Store();
    var zoom := new ZoomControl.ZoomControl(true, context, true, true);
    var hint := new SwipeMessage.SwipeMessageHook(store);
    zoom.HandleZoomStop(2.0);
    accepted := hint.ShowSwipeMessage(1000);
    contextZoomed, storeZoomed := context.isZoomed, store.isZoomed;
  }

  /** The hint fed the context's flag: the same gesture shows the message, hidden again at 2000 ms. */
  method ZoomedSwipeFromContext() returns (contextZoomed: bool, accepted: bool, hideDue: int)
    ensures contextZoomed && accepted && hideDue == 2000
  {
    var context := new ZoomScreenReaderContext.Provider();
    var zoom := new ZoomControl.ZoomControl(true, context, true, true);
    var store := new ZoomScreenReaderStore.Store();
    var hint := new SwipeMessage.SwipeMessageHook(store);
    zoom.HandleZoomStop(2.0);
    accepted := hint.ShowSwipeMessageFromContext(context, 1000);
    contextZoomed := context.isZoomed;
    hideDue := if hint.hideTimerDue.Some? then hint.hideTimerDue.value else 0;
  }
}
