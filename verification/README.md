# Car image gallery — a Dafny model of its slide, prefetch, zoom and manifest logic

This project models the logic inside a React car-image gallery, with Dafny proofs about it. The modelled logic covers:

- the wrap-around slide index over 60 images;
- the zero-padded image paths;
- the append-only list of preloaded neighbours;
- the ±2 full-image prefetch window;
- thumbnail loading in batches of five, with a 300 ms pause between batches;
- pan-edge detection and the throttled "swipe past the edge" hint;
- the zoom thresholds (1 while a gesture runs, 1.05 when it stops);
- the three key-dispatch tables;
- the two-flag zoom/screen-reader context, and the separate global store with the same two flags;
- the image catalogue and the build-time manifest generator.

Each source file becomes one module:

| source | module | form |
|---|---|---|
| `src/api/imageApi.ts` | `ImageApi` | functions |
| `src/components/ImageViewer.tsx` | `ImageViewerComponent` (+ shared `Slides`) | class `ImageViewer` |
| `src/components/reactZoomPanPinch/Viwer.tsx` | `ViewerComponent` (+ shared `Slides`) | class `Viewer` |
| `src/hooks/useImagePreloader.tsx` | `ImagePreloader` | functions, a loop method, class `Preloader` |
| `src/hooks/useThumbnailLoader.tsx` | `ThumbnailLoader` | nested-loop method, class `ThumbnailStore` |
| `src/hooks/TransformViwer/usePanningControl.tsx` | `PanningControl` | class `PanningControl` |
| `src/hooks/TransformViwer/useSwipeMessage.tsx` | `SwipeMessage` | state functions, class `SwipeMessageHook` |
| `src/hooks/TransformViwer/useZoomControl.tsx` | `ZoomControl` | class `ZoomControl` |
| `src/store/useZoomScreenReaderStore.ts` | `ZoomScreenReaderStore` | class `Store` |
| `src/context/ZoomScreenReaderProvider.tsx` | `ZoomScreenReaderContext` | class `Provider` |
| `src/hooks/ImageViewer/useKeyboardNavigation.tsx` | `KeyboardNavigation` | function |
| `src/hooks/useKeyboardNavigation.tsx` | `LegacyKeyboardNavigation` | function |
| `src/hooks/TransformViwer/useTransformViewerShortcuts.tsx` | `TransformViewerShortcuts` | function |
| `scripts/generate-image-list.js` | `GenerateImageList` (+ `StableSort`) | functions |

Shared modules:

- `JsNumber` holds JavaScript's truncating `%`.
- `JsText` holds `toString`, `padStart`, the first `\d+` run and its `parseInt`, and ASCII lowercasing.
- `ZoomWiring` connects the zoom handlers, the context, the store and the swipe hint in two concrete scenarios.
- `Seqs`, `Wrappers` and `StableSort` are small generic helpers. `StableSort` models `Array.prototype.sort` with a numeric-key comparator.

Modelling conventions:

- React state and refs are class fields. Handlers are methods with `modifies` clauses.
- The zoom context and the zustand store are two separate objects. `ZoomScreenReaderContext.Provider` holds the provider's two `useState` cells, which `useZoomScreenReader` hands to the zoom handlers and the keyboard handler. `ZoomScreenReaderStore.Store` is the global store, which the swipe hint reads.
- Time, timers and image-load completions are explicit events:
  - time is an `int` parameter;
  - a timer is a pending due time or queue entry;
  - issuing an image request is an element of a returned request list;
  - a load completion is a method call (`OnImageLoaded`, `OnThumbnailLoaded`).
- Scale, positions and widths are `real`.

Two facts about the code that the model keeps:

- Arrow keys navigate while the thumbnail panel is open; no handler checks it.
- The pan minimum `-(width·scale − width)` is not clamped to 0.

## Model

| member | source | states |
|---|---|---|
| JsNumber.JsRem | src/hooks/useImagePreloader.tsx:19-25 | JS `%`: the result has the dividend's sign, is smaller than the divisor in magnitude, and differs from the dividend by a multiple of the divisor |
| JsNumber.JsRemNonNegative | src/components/ImageViewer.tsx:27-28 | for a non-negative dividend and a positive divisor, JS `%` equals the mathematical remainder |
| JsText.NatToString | src/api/imageApi.ts:17 | `toString()` of a natural number: at least one digit, all digits, no leading zero unless the number is 0 |
| JsText.ParseDigits | scripts/generate-image-list.js:46-47 | `parseInt` of a digit string: the value is 0 exactly when every digit is 0 |
| JsText.ToLowerAscii | scripts/generate-image-list.js:23 | `toLowerCase()`: same length, each character lowercased (ASCII letters only) |
| JsText.IntToString | src/api/imageApi.ts:17 | `toString` gives at least one character, and is all digits exactly when the number is non-negative |
| JsText.ParseNatToString | scripts/generate-image-list.js:46-47 | `parseInt` of what `toString` wrote gives the number back |
| JsText.PadStart | src/api/imageApi.ts:17 | `padStart`: length is max(length, target); the original string is the suffix and every added character is the pad |
| JsText.ParseLeadingZeros | src/api/imageApi.ts:17 | zeros put in front of digits do not change the value `parseInt` reads |
| JsText.FirstDigitRun | scripts/generate-image-list.js:46 | `match(/\d+/)` finds nothing exactly when the name has no digit; otherwise it is a non-empty run of digits |
| JsText.FirstDigitRunOf | scripts/generate-image-list.js:46 | after a digit-free prefix, the first run is exactly the digits that end at the first non-digit |
| ImageApi.FileNumber | src/api/imageApi.ts:17 | the padded file number has at least 3 digits and reads back as index + 1 |
| ImageApi.FileNumberInjective | src/api/imageApi.ts:17 | different images get different file numbers |
| ImageApi.CreateImagePath | src/api/imageApi.ts:15-19 | the first digit run of the path is the file number, which reads as index + 1 |
| ImageApi.PathPrefix | src/api/imageApi.ts:16-18 | the folder part of a path contains no digit |
| ImageApi.CreateImagePathInjective | src/api/imageApi.ts:15-19 | a path determines both its image index and its folder |
| ImageApi.FetchAllImagesMetadata | src/api/imageApi.ts:21-33 | 60 entries, totalImages = images.length, and entry i has id i, the thumbnail path of i and the alt text of i (prefix + (i + 1)) |
| ImageApi.FetchAllThumbnailMetadata | src/api/imageApi.ts:35-48 | the same 60-entry shape, with thumbnail paths |
| ImageApi.FetchersAgree | src/api/imageApi.ts:21-48 | both fetchers return the identical catalogue |
| ImageApi.CatalogueEntriesDistinct | src/api/imageApi.ts:23-27 | different entries have different srcs, and the number in entry i's src is i + 1 |
| ImageApi.FirstImagePath | src/api/imageApi.ts:15-19 | image 0's thumbnail path is `/assets/images/car/carThumbnail/car_001.jpeg` |
| ImageApi.FullCatalogueServesThumbnails | src/api/imageApi.ts:25 | as written, every full-image entry points into the thumbnail folder and never to its `carBig` path |
| ImageApi.FetchAllFullSizeMetadata | src/api/imageApi.ts:21-33 | the corrected full-image catalogue: same ids and alt texts, paths in `carBig` |
| ImageApi.FullSizeAndThumbnailsDisjoint | src/api/imageApi.ts:21-48 | no full-size path equals any thumbnail path, and entries at the same position have the same id and alt |
| Slides.PrevIndex | src/components/ImageViewer.tsx:84-86 | stays in [0, 60); from 0 goes to 59, otherwise to i − 1 |
| Slides.NextIndex | src/components/ImageViewer.tsx:88-90 | stays in [0, 60); from 59 goes to 0, otherwise to i + 1 |
| Slides.PrevNextInverse | src/components/ImageViewer.tsx:84-90 | next after prev, and prev after next, return to the start |
| Slides.NextTimesModular | src/components/ImageViewer.tsx:88-90 | n presses of next from i land on (i + n) mod 60 |
| Slides.PrevTimesModular | src/components/ImageViewer.tsx:84-86 | n presses of prev from i land on (i − n) mod 60 |
| Slides.GetImagePath | src/components/ImageViewer.tsx:12-16 | the viewer path is "/src" followed by the catalogue's path for the same image and folder |
| Slides.GetImagePathInjective | src/components/reactZoomPanPinch/Viwer.tsx:29-33 | a viewer path determines its image and its folder |
| Slides.FullSizePaths | src/components/ImageViewer.tsx:20-24 | one full-size path per preloaded index, in order |
| Slides.PreloadNeighbours | src/components/ImageViewer.tsx:27-38 | only appends (at most two entries); afterwards both neighbours are present; nothing appended was already there |
| Slides.PreloadNeighboursKeepsInvariant | src/components/ImageViewer.tsx:27-38 | if the list had no repeats and held only indices in range, it still does |
| Slides.PreloadNeighboursEffect | src/components/ImageViewer.tsx:19-38 | the effect body of both viewers: the new list is PreloadNeighbours of the old one and keeps it free of repeats and in range; the requested paths are the full-size paths of exactly the appended indices, in order |
| Slides.PreloadNeighboursIdempotent | src/components/ImageViewer.tsx:30-38 | running the effect again for the same slide appends nothing |
| Slides.Highlights | src/components/ImageViewer.tsx:66-72 | 60 thumbnails, and the highlighted set is exactly {currentIndex} |
| Slides.ApplyStep | src/components/ImageViewer.tsx:84-90 | a prev or next step keeps the index in range |
| ImageViewerComponent.KeyStep | src/components/ImageViewer.tsx:43-49 | ArrowLeft means prev, ArrowRight means next, and every other key means nothing (each direction of each case) |
| ImageViewerComponent.ImageViewer.constructor | src/components/ImageViewer.tsx:7-9 | starts at slide 0, with no preloads and the panel closed |
| ImageViewerComponent.ImageViewer.HandlePrev | src/components/ImageViewer.tsx:84-86 | the index becomes PrevIndex of the old one |
| ImageViewerComponent.ImageViewer.HandleNext | src/components/ImageViewer.tsx:88-90 | the index becomes NextIndex of the old one |
| ImageViewerComponent.ImageViewer.RunPreloadEffect | src/components/ImageViewer.tsx:19-39 | the list becomes PreloadNeighbours of the old list; the requested paths are the full-size paths of exactly the appended indices |
| ImageViewerComponent.ImageViewer.HandleThumbnailClick | src/components/ImageViewer.tsx:60-64 | the clicked image becomes current and the panel closes |
| ImageViewerComponent.ImageViewer.ToggleExpanded | src/components/ImageViewer.tsx:100 | flips the panel flag and keeps the index and the preload list valid |
| ImageViewerComponent.ImageViewer.CloseExpanded | src/components/ImageViewer.tsx:113-115 | closes the panel and keeps the index and the preload list valid |
| ImageViewerComponent.ImageViewer.HandleKeyPress | src/components/ImageViewer.tsx:43-49 | applies KeyStep's step to the index, or leaves it alone |
| ViewerComponent.KeySteps | src/components/reactZoomPanPinch/Viwer.tsx:68-71 | the two independent `if`s fire at most once, and agree with the if/else table of the other viewer |
| ViewerComponent.Counter | src/components/reactZoomPanPinch/Viwer.tsx:110-111 | shows currentIndex + 1 out of 60, so it reads between 1 and 60 |
| ViewerComponent.Viewer.constructor | src/components/reactZoomPanPinch/Viwer.tsx:25-26 | starts at slide 0 with no preloads |
| ViewerComponent.Viewer.HandlePrev | src/components/reactZoomPanPinch/Viwer.tsx:58-60 | the index becomes PrevIndex of the old one |
| ViewerComponent.Viewer.HandleNext | src/components/reactZoomPanPinch/Viwer.tsx:62-64 | the index becomes NextIndex of the old one |
| ViewerComponent.Viewer.RunPreloadEffect | src/components/reactZoomPanPinch/Viwer.tsx:36-56 | the list becomes PreloadNeighbours of the old list; the requested paths are those of the appended indices |
| ViewerComponent.Viewer.HandleKeyPress | src/components/reactZoomPanPinch/Viwer.tsx:67-75 | the index becomes the result of applying KeySteps(key) |
| ImagePreloader.WindowIndices | src/hooks/useImagePreloader.tsx:17-26 | five entries with the current index in the middle; all in [0, total) when the current index is |
| ImagePreloader.WindowIsModular | src/hooks/useImagePreloader.tsx:17-26 | the window is current−2 … current+2, each taken mod total (the total = 1 case included) |
| ImagePreloader.WindowDistinct | src/hooks/useImagePreloader.tsx:16-26 | with at least 5 images, the five entries are all different |
| ImagePreloader.Dedup | src/hooks/useImagePreloader.tsx:29 | `[...new Set(xs)]`: the same members, no repeats, no longer than xs, and unchanged if xs had no repeats |
| ImagePreloader.DedupInFirstOccurrenceOrder | src/hooks/useImagePreloader.tsx:29 | the `Set` lists its members in the order of their first occurrences in xs |
| ImagePreloader.UniqueWindowShape | src/hooks/useImagePreloader.tsx:17-29 | the deduplicated window contains the current index, has no repeats, has 1–5 entries and all are in range |
| ImagePreloader.WindowExact | src/hooks/useImagePreloader.tsx:16-29 | with at least 5 images, the deduplicated window is exactly the five indices current−2 … current+2 mod total |
| ImagePreloader.Pending | src/hooks/useImagePreloader.tsx:31-33 | keeps exactly the window indices that are not loaded, as a subsequence of the window (original order kept), and adds no repeats |
| ImagePreloader.PendingInFirstOccurrenceOrder | src/hooks/useImagePreloader.tsx:31-33 | from indices without repeats, the indices kept follow the order of first occurrences |
| ImagePreloader.PreloadRequestsInWindowOrder | src/hooks/useImagePreloader.tsx:29-42 | requests go out in the order in which the window first lists their indices |
| ImagePreloader.PreloadRequestsSound | src/hooks/useImagePreloader.tsx:29-42 | no loaded index is requested, no index is requested twice, every request is in the window and carries that entry's src, and every unloaded window index is requested |
| ImagePreloader.PreloadEffect | src/hooks/useImagePreloader.tsx:11-43 | no metadata gives no requests; otherwise the requests are exactly PreloadRequests |
| ImagePreloader.RequestEach | src/hooks/useImagePreloader.tsx:31-42 | the `forEach` loop: one request per not-yet-loaded index, in list order, each carrying that entry's src |
| ImagePreloader.CurrentLoadedOrRequested | src/hooks/useImagePreloader.tsx:17-33 | the current image is already loaded or is requested |
| ImagePreloader.TenImageWindow | src/hooks/useImagePreloader.tsx:17-29 | 10 images, at index 0: the window is 8, 9, 0, 1, 2 |
| ImagePreloader.ThreeImageWindow | src/hooks/useImagePreloader.tsx:17-29 | 3 images, at index 0: the window 1, 2, 0, 1, 2 deduplicates to 1, 2, 0 |
| ImagePreloader.DedupSnoc | src/hooks/useImagePreloader.tsx:29 | appending an element to xs leaves the `Set` unchanged if it was seen, and otherwise appends it |
| ImagePreloader.DedupRepeatedTail | src/hooks/useImagePreloader.tsx:17-29 | for distinct a, b, c, the window a, b, c, a, b deduplicates to a, b, c |
| ImagePreloader.PreloadFolder | src/hooks/useImagePreloader.tsx:41 | given the catalogue as written, the requests fetch thumbnail files; given the corrected one, they fetch `carBig` files |
| ImagePreloader.Preloader.constructor | src/hooks/useImagePreloader.tsx:8 | the loaded set starts empty |
| ImagePreloader.Preloader.OnImageLoaded | src/hooks/useImagePreloader.tsx:36-38 | a completion adds its index and removes nothing |
| ImagePreloader.Preloader.IsCurrentImageLoaded | src/hooks/useImagePreloader.tsx:47 | true exactly when the current index is in the loaded set |
| ThumbnailLoader.BatchesFrom | src/hooks/useThumbnailLoader.tsx:18-24 | every batch from batchStart on is non-empty and lies within [batchStart, total) |
| ThumbnailLoader.BatchesFromShape | src/hooks/useThumbnailLoader.tsx:18-24 | batch k is [start + 5k, min(start + 5k + 5, total)) |
| ThumbnailLoader.BatchesPartition | src/hooks/useThumbnailLoader.tsx:15-24 | ceil(n/5) batches, from 0 to n, consecutive, each of size 1–5; index i lies in batch i/5 and in no other |
| ThumbnailLoader.TwelveImages | src/hooks/useThumbnailLoader.tsx:18-24 | 12 images give the batches [0,5), [5,10), [10,12) |
| ThumbnailLoader.LoadThumbnails | src/hooks/useThumbnailLoader.tsx:10-50 | the nested loops emit exactly the event trace LoadPlan: dispatches batch by batch, with a pause after each batch except the last |
| ThumbnailLoader.EventsFromBatch | src/hooks/useThumbnailLoader.tsx:18-49 | from any batch start, the dispatches are those of the remaining range, and the pauses number one fewer than the batches |
| ThumbnailLoader.RunDispatchesEachOnce | src/hooks/useThumbnailLoader.tsx:18-49 | a run dispatches the whole range once, with batches − 1 pauses, each of 300 ms |
| ThumbnailLoader.PausesAre300 | src/hooks/useThumbnailLoader.tsx:46-48 | every pause lasts 300 ms |
| ThumbnailLoader.DispatchesAscending | src/hooks/useThumbnailLoader.tsx:27-43 | dispatches are in ascending index order, each carries its own entry, and an index is dispatched exactly when its entry is defined |
| ThumbnailLoader.NothingWithoutMetadata | src/hooks/useThumbnailLoader.tsx:11 | missing or empty metadata dispatches nothing |
| ThumbnailLoader.ThumbnailStore.constructor | src/hooks/useThumbnailLoader.tsx:5-7 | the map starts empty |
| ThumbnailLoader.ThumbnailStore.OnThumbnailLoaded | src/hooks/useThumbnailLoader.tsx:33-39 | id ↦ thumbData is set and every other entry is kept |
| PanningControl.NextDirection | src/hooks/TransformViwer/usePanningControl.tsx:18-22 | left if x decreased, right if it increased, unchanged if equal |
| PanningControl.MinPositionX | src/hooks/TransformViwer/usePanningControl.tsx:25-28 | 0 at scale 1; ≤ 0 when zoomed in; > 0 (not clamped) when zoomed out |
| PanningControl.BoundaryAt | src/hooks/TransformViwer/usePanningControl.tsx:31-41 | right iff \|x\| < 1; left iff not right and \|x − min\| < 1; none otherwise |
| PanningControl.EdgesApart | src/hooks/TransformViwer/usePanningControl.tsx:31-41 | when the content is at least 2 px wider than the wrapper, no position is near both edges |
| PanningControl.RightWinsAtScaleOne | src/hooks/TransformViwer/usePanningControl.tsx:31-41 | at scale 1 both edges sit at 0, and "right" wins |
| PanningControl.SwipingBeyondBoundary | src/hooks/TransformViwer/usePanningControl.tsx:44-48 | true iff boundary and direction are both left or both right |
| PanningControl.PushingPastRightEdge | src/hooks/TransformViwer/usePanningControl.tsx:18-52 | dragging right within a pixel of the right edge triggers the hint |
| PanningControl.PushingPastLeftEdge | src/hooks/TransformViwer/usePanningControl.tsx:18-52 | dragging left at the left edge (away from the right one) triggers the hint |
| PanningControl.NoHintWithoutMovementAfterStop | src/hooks/TransformViwer/usePanningControl.tsx:18-61 | after a stop, an event at the same x triggers no hint |
| PanningControl.PanningControl.constructor | src/hooks/TransformViwer/usePanningControl.tsx:6-8 | position (0, 0), no direction, no boundary |
| PanningControl.PanningControl.HandlePanning | src/hooks/TransformViwer/usePanningControl.tsx:10-57 | not zoomed or no wrapper: nothing changes and no hint. Otherwise: direction, boundary and hint follow the functions above, and the last position becomes the event's |
| PanningControl.PanningControl.HandlePanningStop | src/hooks/TransformViwer/usePanningControl.tsx:59-61 | clears the direction only |
| SwipeMessage.Show | src/hooks/TransformViwer/useSwipeMessage.tsx:10-26 | an accepted call shows the message, sets last = now and makes the timer due at now + 1000; any other call changes nothing |
| SwipeMessage.Tick | src/hooks/TransformViwer/useSwipeMessage.tsx:22-24 | a due timer hides the message and is gone; otherwise nothing changes |
| SwipeMessage.Cleanup | src/hooks/TransformViwer/useSwipeMessage.tsx:29-35 | unmount cancels the timer and leaves the rest |
| SwipeMessage.StepKeepsInv | src/hooks/TransformViwer/useSwipeMessage.tsx:10-35 | a pending timer always belongs to a visible message and is due 1000 ms after the last accepted call; last never decreases |
| SwipeMessage.RunKeepsInv | src/hooks/TransformViwer/useSwipeMessage.tsx:10-35 | the same holds for any sequence of events |
| SwipeMessage.InitialInv | src/hooks/TransformViwer/useSwipeMessage.tsx:5-7 | the initial state satisfies it, with the message hidden |
| SwipeMessage.AcceptedAfterLast | src/hooks/TransformViwer/useSwipeMessage.tsx:14-16 | every later accepted call is more than 500 ms after the current last time |
| SwipeMessage.AcceptedTimesSpaced | src/hooks/TransformViwer/useSwipeMessage.tsx:14-16 | any two accepted calls in a run are more than 500 ms apart |
| SwipeMessage.VisibleUntilDue | src/hooks/TransformViwer/useSwipeMessage.tsx:18-24 | the message stays visible until its timer is due |
| SwipeMessage.UnzoomedNeverShown | src/hooks/TransformViwer/useSwipeMessage.tsx:10-11 | while every request is unzoomed, none is accepted, and from the initial state the state never changes |
| SwipeMessage.SwipeMessageHook.constructor | src/hooks/TransformViwer/useSwipeMessage.tsx:5-8 | hidden, last 0, no timer; reads the given global store |
| SwipeMessage.SwipeMessageHook.ShowSwipeMessage | src/hooks/TransformViwer/useSwipeMessage.tsx:8-26 | accepted iff the store's isZoomed holds and now − last > 500; the new state is Show of the old one |
| SwipeMessage.SwipeMessageHook.ShowSwipeMessageFromContext | src/hooks/TransformViwer/useSwipeMessage.tsx:10-26 | the same call reading the context's isZoomed: accepted iff that flag holds and now − last > 500 |
| SwipeMessage.SwipeMessageHook.ShowIfZoomed | src/hooks/TransformViwer/useSwipeMessage.tsx:10-26 | for a given flag: accepted iff zoomed and now − last > 500; the new state is Show of the old one |
| SwipeMessage.SwipeMessageHook.AdvanceClock | src/hooks/TransformViwer/useSwipeMessage.tsx:22-24 | the new state is Tick of the old one |
| SwipeMessage.SwipeMessageHook.Unmount | src/hooks/TransformViwer/useSwipeMessage.tsx:29-35 | the new state is Cleanup of the old one |
| ZoomScreenReaderContext.Provider.constructor | src/context/ZoomScreenReaderProvider.tsx:10-11 | both `useState` cells start false |
| ZoomScreenReaderContext.Provider.SetIsZoomed | src/context/ZoomScreenReaderProvider.tsx:10 | sets the context's isZoomed to the value and keeps screenReaderEnabled |
| ZoomScreenReaderContext.Provider.SetScreenReaderEnabled | src/context/ZoomScreenReaderProvider.tsx:11 | sets the context's screenReaderEnabled to the value and keeps isZoomed |
| ZoomScreenReaderStore.Store.constructor | src/store/useZoomScreenReaderStore.ts:12-13 | both flags start false |
| ZoomScreenReaderStore.Store.SetIsZoomed | src/store/useZoomScreenReaderStore.ts:14 | sets isZoomed to the value, whatever it was before (so repeating the call changes nothing), and keeps the other flag |
| ZoomScreenReaderStore.Store.SetScreenReaderEnabled | src/store/useZoomScreenReaderStore.ts:15 | sets screenReaderEnabled to the value, whatever it was before, and keeps isZoomed |
| ZoomControl.TouchMoveIffNotZoomed | src/hooks/TransformViwer/useZoomControl.tsx:37-49 | slider touch is allowed exactly when the stop rule says "not zoomed" |
| ZoomControl.ZoomHysteresis | src/hooks/TransformViwer/useZoomControl.tsx:26-37 | stop-zoomed implies change-zoomed; the two rules disagree exactly on 1 < scale ≤ 1.05 |
| ZoomControl.ZoomControl.constructor | src/hooks/TransformViwer/useZoomControl.tsx:17-19 | keeps the props (current image, slider present) and the zoom context that `useZoomScreenReader` returns, with no viewer attached, no commands and no timers yet |
| ZoomControl.ZoomControl.OnLibraryState | src/hooks/TransformViwer/useZoomControl.tsx:18 | `transformRef.current` becomes the library's current state |
| ZoomControl.ZoomControl.HandleZoomChange | src/hooks/TransformViwer/useZoomControl.tsx:20-29 | for the current image, the context's isZoomed = scale > 1; otherwise nothing happens |
| ZoomControl.ZoomControl.HandleZoomStop | src/hooks/TransformViwer/useZoomControl.tsx:31-40 | for the current image, the context's isZoomed = scale > 1.05; otherwise nothing happens |
| ZoomControl.ZoomControl.HandleTransformed | src/hooks/TransformViwer/useZoomControl.tsx:42-53 | for the current image with a slider, allowTouchMove = scale ≤ 1.05; otherwise nothing happens |
| ZoomControl.ZoomControl.CustomZoomIn | src/hooks/TransformViwer/useZoomControl.tsx:55-65 | sends zoomIn(0.5) if a viewer is attached, and always queues a recheck; nothing happens off the current image |
| ZoomControl.ZoomControl.CustomZoomOut | src/hooks/TransformViwer/useZoomControl.tsx:67-77 | sends zoomOut(0.5) if a viewer is attached, and always queues a recheck; nothing happens off the current image |
| ZoomControl.ZoomControl.CustomResetTransform | src/hooks/TransformViwer/useZoomControl.tsx:79-87 | sends resetTransform if a viewer is attached, and queues an unconditional "not zoomed" |
| ZoomControl.ZoomControl.CustomSetTransform | src/hooks/TransformViwer/useZoomControl.tsx:89-102 | with a viewer attached, sends setTransform(x, y, current scale, 0.2), so the scale is kept; otherwise nothing |
| ZoomControl.ZoomControl.SettleTimerFires | src/hooks/TransformViwer/useZoomControl.tsx:60-86 | the oldest timer fires. A recheck sets the context's isZoomed = scale > 1.05 at firing time (if a viewer is attached); a reset sets it false |
| ZoomWiring.ZoomedSwipeAsWritten | src/hooks/TransformViwer/useSwipeMessage.tsx:8-11 | after a pinch to scale 2 stops on the current image, the context says zoomed, the store still says not, and the swipe hint is refused |
| ZoomWiring.ZoomedSwipeFromContext | src/hooks/TransformViwer/useZoomControl.tsx:19-40 | the same gesture with the hint reading the context: the hint is accepted and its hide timer is due at 2000 ms |
| KeyboardNavigation.HandleKeyPress | src/hooks/ImageViewer/useKeyboardNavigation.tsx:24-45 | each action holds iff its key and flags match: arrows only when not zoomed, f with the callback, Escape with the panel open and the callback, t with the setter; nothing when disabled |
| KeyboardNavigation.PanelAfter | src/hooks/ImageViewer/useKeyboardNavigation.tsx:42-43 | the t action flips the panel flag; any other action keeps it |
| KeyboardNavigation.ToggleTwiceRestores | src/hooks/ImageViewer/useKeyboardNavigation.tsx:42-43 | two t presses leave the panel as it was |
| KeyboardNavigation.ZoomedArrowsDoNothing | src/hooks/ImageViewer/useKeyboardNavigation.tsx:28-33 | while zoomed, arrows do nothing, whatever the panel state |
| LegacyKeyboardNavigation.HandleKeyPress | src/hooks/useKeyboardNavigation.tsx:21-33 | arrows always navigate when enabled; f only with the callback; Escape only when expanded and with the callback; never a toggle |
| LegacyKeyboardNavigation.AgreesWithCurrentHandler | src/hooks/useKeyboardNavigation.tsx:23-33 | when not zoomed and the key is not t, the old and new handlers pick the same action |
| TransformViewerShortcuts.HandleKeyDown | src/hooks/TransformViwer/useTransformViewerShortcuts.tsx:23-55 | ignored off the current image or in a text field; + and = zoom in, − zooms out, 0 resets, and each arrow pans its own way (each case iff) |
| TransformViewerShortcuts.ArrowKeyRouting | src/hooks/TransformViwer/useTransformViewerShortcuts.tsx:43-47 | a horizontal arrow always pans the current image; while zoomed it does not change the slide, and unzoomed it does |
| StableSort.SortedByPairwise | scripts/generate-image-list.js:44-49 | neighbour order by key gives order between any two positions |
| StableSort.InsertBy | scripts/generate-image-list.js:44-49 | inserting into a key-sorted list keeps it sorted and adds one element; the new head is x or the old head |
| StableSort.InsertByPermutes | scripts/generate-image-list.js:44-49 | inserting adds exactly one occurrence of x and loses nothing |
| StableSort.SortBy | scripts/generate-image-list.js:44-49 | the result is sorted by key and is a permutation of the input |
| StableSort.SortIsStable | scripts/generate-image-list.js:44-49 | elements with equal keys keep their input order |
| StableSort.SortOfSorted | scripts/generate-image-list.js:44-49 | an already sorted list comes back unchanged |
| GenerateImageList.ExtName | scripts/generate-image-list.js:23 | `path.extname`: a non-empty result is a dot-initial suffix with no other dot, shorter than the name. An empty one means there is no dot, the name is "..", or its only dot is the leading one |
| GenerateImageList.IsImageFile | scripts/generate-image-list.js:21-25 | true iff the name ends, in any letter case, with one of .jpg .jpeg .png .gif .webp and has something before it |
| GenerateImageList.ImageFileIffSuffix | scripts/generate-image-list.js:21-25 | lowercased extension in the list ⇔ the name has an image suffix |
| GenerateImageList.ExtOfImageSuffix | scripts/generate-image-list.js:23 | for such a name, the extension is exactly that suffix |
| GenerateImageList.SortKey | scripts/generate-image-list.js:46-47 | the comparator key: a name with no digit has key 0 (the `\|\| "0"` fallback) |
| GenerateImageList.SortKeyReadsNumber | scripts/generate-image-list.js:46-47 | after a digit-free prefix, a zero-padded numeral followed by a non-digit is read back as its number |
| GenerateImageList.FilterImages | scripts/generate-image-list.js:43 | each name occurs as often as in the listing if it is an image file, and otherwise not at all; the kept names are a subsequence of the listing, in listing order |
| GenerateImageList.FilterKeepsAllImages | scripts/generate-image-list.js:43 | a listing of image files only is kept whole |
| GenerateImageList.IndexOf | scripts/generate-image-list.js:53 | finds an occurrence, and no earlier one exists |
| GenerateImageList.ReplaceFirst | scripts/generate-image-list.js:53 | a string pattern replaces only the first occurrence |
| GenerateImageList.PublicPrefixDropped | scripts/generate-image-list.js:53 | "public/" + rest becomes rest |
| GenerateImageList.ServedDirectory | scripts/generate-image-list.js:11-12 | each of the two directory constants, with its first "public/" removed, is the folder under `/assets/images/car/` that the front end requests from |
| GenerateImageList.GetImagesFromDirectory | scripts/generate-image-list.js:28-60 | missing directory → []. Otherwise the filenames are a permutation of the image files, sorted by key; entry i has id i, src "/" + dir without "public/" + "/" + name, alt of i |
| GenerateImageList.ManifestEntries | scripts/generate-image-list.js:50-55 | the `.map` step: the filenames are the given names in order; entry i has id i, src "/" + dir without its first "public/" + "/" + name, and alt of i |
| GenerateImageList.GetImagesIsStable | scripts/generate-image-list.js:42-49 | names with the same number keep their listing order |
| GenerateImageList.GenerateImageManifest | scripts/generate-image-list.js:63-79 | totalCount.big and totalCount.thumbnail are the two list lengths; the lists come from the two directories |
| GenerateImageList.CatalogueSortKey | scripts/generate-image-list.js:44-49 | the key of `car_NNN.jpeg` for image i is i + 1 |
| GenerateImageList.CatalogueIsImage | scripts/generate-image-list.js:21-25 | every catalogue file name passes the filter |
| GenerateImageList.CatalogueListing | scripts/generate-image-list.js:42-43 | a folder holding `car_001.jpeg` … in order consists of valid entry names that are all image files |
| GenerateImageList.CatalogueListingSorted | scripts/generate-image-list.js:44-49 | that folder is already in comparator order, so sorting leaves it unchanged |
| GenerateImageList.CatalogueSrc | scripts/generate-image-list.js:53 | the manifest src of a catalogue file equals the front end's createImagePath |
| GenerateImageList.CatalogueManifestMatchesFrontEnd | scripts/generate-image-list.js:28-60 | a folder of the catalogue's files gives entries whose id, filename, src and alt match what the front end computes |

## Findings

| source | as written | input that shows it | evidently intended | confidence | as-written member | corrected member |
|---|---|---|---|---|---|---|
| src/hooks/TransformViwer/useSwipeMessage.tsx:8 | the hint reads `isZoomed` from the global store, but the zoom handlers write the context's flag (`useZoomControl.tsx:19`), and no modelled code writes the store. The hint is then never shown | pinch the current image to scale 2, then pan into an edge 1 s after mount | the hint reads the flag the zoom handlers write, as `useKeyboardNavigation.tsx:23` does | low (a writer outside the modelled files would void it), not executed | ZoomWiring.ZoomedSwipeAsWritten | ZoomWiring.ZoomedSwipeFromContext |
| src/api/imageApi.ts:25 | `fetchAllImagesMetadata` builds every src with `isThumb = true`, so the full-size catalogue is identical to the thumbnail one. The main viewer and the full-image preloader load thumbnail files | index 0: src is `/assets/images/car/carThumbnail/car_001.jpeg` | full-size entries point into `carBig` (`isThumb = false`), as the manifest's big-image list does | medium, not executed | ImageApi.FullCatalogueServesThumbnails | ImageApi.FetchAllFullSizeMetadata |

`SwipeMessage.UnzoomedNeverShown` is the general form of the first row: while the store's flag stays false, no request is ever accepted.

`ImagePreloader.PreloadFolder` states the consequence for the preloader under each version. `ImageApi.FullSizeAndThumbnailsDisjoint` proves that the corrected paths never coincide with thumbnail paths. `GenerateImageList.CatalogueManifestMatchesFrontEnd` (with `isThumb = false`) proves that they agree with the manifest's `carBig` entries.

## Left out

- Rendering, markup, Tailwind classes, aria attributes, and the focus trap and DOM focus handling: there is no state logic in them.
- Fullscreen, screen-orientation and focus hooks: they are browser APIs.
- Swiper and the internals of react-zoom-pan-pinch (`zoomIn`, `zoomOut`, `resetTransform`, `setTransform`). They are foreign code, so the model records the commands sent. `ZoomControl.OnLibraryState` is the library's state change, as an event.
- The 16 ms lodash debounce in front of `handlePanning`: it only limits the rate. Every event that gets through is modelled.
- Downloading images (`new Image()`, `onload`): a request is a list element, and a completion is a method call. Failed loads simply never complete.
- React timing: re-render timing, effect ordering, stale closures and batched `setState`. In particular, `isZoomed` is passed in as its value at call time.
- The async `Promise` wrappers around the catalogue builders, and `Promise.all` in the data hook.
- The script's file system I/O, directory creation, `JSON.stringify` and the `lastUpdated` timestamp. A directory listing is an `Option<seq<string>>` parameter: `None` stands for a missing or unreadable directory, and readdir's order is the input order.
- Floating-point rounding: scale, positions and widths are exact reals.
- The two functional `setPreloadedIndexes` updates in each viewer's preload effect become one assignment of their combined result (`Slides.PreloadNeighboursEffect`). React applies both, in order, before the next render, so no intermediate list is ever observed.
- `ImagePreloader.PreloadEffect`: requires 0 < totalImages ≤ images.length and a current index in range. With totalImages = 0, or an index past the images, the source yields NaN or throws.
- JsNumber.JsRem: `-1 % 1` is `-0` in JavaScript; the model gives 0, which `Set` and array indexing treat the same way.
- GenerateImageList.ExtName: models Node's `path.extname` for a single path component only. Directory listings never contain `/`.
- JsText.ToLowerAscii: lowercases ASCII letters only. No non-ASCII character lowercases to a letter of the five extensions.
- GenerateImageList.SortKey: `parseInt` is exact here; for numbers beyond 2^53 JavaScript would round.
- ImageViewerComponent.ImageViewer.HandleThumbnailClick: requires the clicked index to be in [0, 60), as every rendered thumbnail's index is.
