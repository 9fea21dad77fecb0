/**
 * The full-image prefetcher of `src/hooks/useImagePreloader.tsx`: a window of
 * five indices around the current one (wrapped with JavaScript's remainder),
 * deduplicated, minus what is already loaded; every completed load grows the
 * loaded set. Image downloads are events: the effect returns the requests it
 * issues and `OnImageLoaded` is the `onload` callback.
 */
module ImagePreloader {
  import opened Wrappers
  import opened JsNumber
  import opened Seqs
  import opened ImageApi

  /** `indicesToPreload`: current - 2 .. current + 2 in this order. */
  function WindowIndices(currentIndex: int, totalImages: int): (w: seq<int>)
    requires totalImages > 0
    ensures |w| == 5 && w[2] == currentIndex
    ensures 0 <= currentIndex < totalImages ==> forall k :: 0 <= k < 5 ==> 0 <= w[k] < totalImages
  {
    [ JsRem(currentIndex - 2 + totalImages, totalImages),
      JsRem(currentIndex - 1 + totalImages, totalImages),
      currentIndex,
      JsRem(currentIndex + 1, totalImages),
      JsRem(currentIndex + 2, totalImages) ]
  }

  lemma ModSmall(a: int, t: int)
    requires t > 0 && 0 <= a < 2 * t
    ensures a % t == if a < t then a else a - t
  {
    if a < t {
      ModUnique(a, t, 0, a);
    } else {
      ModUnique(a, t, 1, a - t);
    }
  }

  /** Window entry `k` is `currentIndex + k - 2` taken modulo the total (mathematically). */
  lemma {:induction false} WindowIsModular(currentIndex: int, totalImages: int)
    requires 0 <= currentIndex < totalImages
    ensures WindowIndices(currentIndex, totalImages) == [
      (currentIndex - 2) % totalImages, (currentIndex - 1) % totalImages, currentIndex % totalImages,
      (currentIndex + 1) % totalImages, (currentIndex + 2) % totalImages]
  {
    var c, t := currentIndex, totalImages;
    ModUnique(c, t, 0, c);
    if t == 1 {
      ModUnique(c - 2, 1, c - 2, 0);
      ModUnique(c - 1, 1, c - 1, 0);
      ModUnique(c + 1, 1, c + 1, 0);
      ModUnique(c + 2, 1, c + 2, 0);
    } else {
      JsRemNonNegative(c - 2 + t, t);
      JsRemNonNegative(c - 1 + t, t);
      JsRemNonNegative(c + 1, t);
      JsRemNonNegative(c + 2, t);
      ModShift(c - 2, t);
      ModShift(c - 1, t);
    }
  }

  lemma ModShift(a: int, t: int)
    requires t > 0
    ensures (a + t) % t == a % t
  {
    ModUnique(a + t, t, a / t + 1, a % t);
  }

  /** A remainder of a dividend below twice the divisor: at most one wrap. */
  lemma Wrap(a: int, t: int)
    requires 0 < t && 0 <= a < 2 * t
    ensures JsRem(a, t) == if a < t then a else a - t
  {
    JsRemNonNegative(a, t);
    ModSmall(a, t);
  }

  /** The window's neighbours, wrapped by hand. */
  lemma WindowValues(c: int, t: int)
    requires t >= 3 && 0 <= c < t
    ensures var w := WindowIndices(c, t);
      w[0] == (if c >= 2 then c - 2 else c - 2 + t) &&
      w[1] == (if c >= 1 then c - 1 else c - 1 + t) &&
      w[3] == (if c + 1 < t then c + 1 else c + 1 - t) &&
      w[4] == (if c + 2 < t then c + 2 else c + 2 - t)
  {
    Wrap(c - 2 + t, t);
    Wrap(c - 1 + t, t);
    Wrap(c + 1, t);
    Wrap(c + 2, t);
  }

  /** With at least five images the window holds five distinct indices. */
  lemma {:induction false} WindowDistinct(currentIndex: int, totalImages: int)
    requires totalImages >= 5 && 0 <= currentIndex < totalImages
    ensures NoDups(WindowIndices(currentIndex, totalImages))
  {
    WindowValues(currentIndex, totalImages);
  }

  /** `[...new Set(s)]`: the elements of `s` in order of first occurrence. */
  function Dedup(s: seq<int>): (r: seq<int>)
    ensures forall x :: x in r <==> x in s
    ensures NoDups(r)
    ensures |r| <= |s|
    ensures NoDups(s) ==> r == s
  {
    if s == [] then []
    else
      var d := Dedup(s[..|s| - 1]);
      var x := s[|s| - 1];
      assert forall y :: y in s <==> y in s[..|s| - 1] || y == x;
      if x in d then d else d + [x]
  }

  /** `Dedup` keeps each element at its first occurrence: the result follows the order of first occurrences in `s`. */
  lemma {:induction false} DedupInFirstOccurrenceOrder(s: seq<int>)
    ensures InFirstOccurrenceOrder(Dedup(s), s)
    decreases |s|
  {
    if s != [] {
      var init, x := s[..|s| - 1], s[|s| - 1];
      assert s == init + [x];
      DedupInFirstOccurrenceOrder(init);
      FirstOccurrenceOrderSnoc(Dedup(init), init, x);
    }
  }

  /** The deduplicated window: the current index, no repeats, at most five entries, all in range. */
  lemma UniqueWindowShape(currentIndex: int, totalImages: int)
    requires 0 <= currentIndex < totalImages
    ensures var u := Dedup(WindowIndices(currentIndex, totalImages));
      currentIndex in u && NoDups(u) && 1 <= |u| <= 5 &&
      forall k :: 0 <= k < |u| ==> 0 <= u[k] < totalImages
  {
    var w := WindowIndices(currentIndex, totalImages);
    var u := Dedup(w);
    assert currentIndex in w;
    assert forall k :: 0 <= k < |u| ==> u[k] in w;
  }

  /** With at least five images the window is exactly current - 2 .. current + 2 modulo the total. */
  lemma WindowExact(currentIndex: int, totalImages: int)
    requires totalImages >= 5 && 0 <= currentIndex < totalImages
    ensures var u := Dedup(WindowIndices(currentIndex, totalImages));
      u == [(currentIndex - 2) % totalImages, (currentIndex - 1) % totalImages, currentIndex,
            (currentIndex + 1) % totalImages, (currentIndex + 2) % totalImages]
  {
    WindowDistinct(currentIndex, totalImages);
    WindowIsModular(currentIndex, totalImages);
    ModUnique(currentIndex, totalImages, 0, currentIndex);
  }

  /** The indices of `indices` that are not loaded yet, in order. */
  function Pending(indices: seq<int>, loaded: set<int>): (r: seq<int>)
    ensures forall x :: x in r <==> x in indices && x !in loaded
    ensures NoDups(indices) ==> NoDups(r)
    ensures |r| <= |indices|
    ensures IsSubsequence(r, indices)
  {
    if indices == [] then []
    else
      var init := indices[..|indices| - 1];
      var p := Pending(init, loaded);
      var x := indices[|indices| - 1];
      assert indices == init + [x];
      assert forall y :: y in indices <==> y in init || y == x;
      if x in loaded then
        SubsequenceSnoc(p, init, x);
        p
      else
        assert (p + [x])[..|p|] == p;
        p + [x]
  }

  /** Of indices without repeats, `Pending` keeps the rest in the order in which they first occur. */
  lemma {:induction false} PendingInFirstOccurrenceOrder(indices: seq<int>, loaded: set<int>)
    requires NoDups(indices)
    ensures InFirstOccurrenceOrder(Pending(indices, loaded), indices)
    decreases |indices|
  {
    if indices != [] {
      var init, x := indices[..|indices| - 1], indices[|indices| - 1];
      assert indices == init + [x];
      assert NoDups(init) && x !in init;
      PendingInFirstOccurrenceOrder(init, loaded);
      FirstOccurrenceOrderSnoc(Pending(init, loaded), init, x);
    }
  }

  /** One `new Image()` whose `src` is set. */
  datatype LoadRequest = LoadRequest(index: int, src: string)

  /** What the effect needs of the metadata: a positive count and an entry for every index below it. */
  predicate Consistent(meta: ImagesMetadataResponse) {
    0 < meta.totalImages <= |meta.images|
  }

  /** Every index lies in `[0, bound)`. */
  predicate IndicesBelow(indices: seq<int>, bound: int) {
    forall k :: 0 <= k < |indices| ==> 0 <= indices[k] < bound
  }

  /** The requests for the given indices, in order. */
  function RequestsFor(indices: seq<int>, images: seq<ImageData>): (r: seq<LoadRequest>)
    requires IndicesBelow(indices, |images|)
    ensures |r| == |indices|
    ensures forall k :: 0 <= k < |r| ==> r[k] == LoadRequest(indices[k], images[indices[k]].src)
  {
    seq(|indices|, k requires 0 <= k < |indices| => LoadRequest(indices[k], images[indices[k]].src))
  }

  lemma RequestsForSnoc(indices: seq<int>, x: int, images: seq<ImageData>)
    requires IndicesBelow(indices, |images|)
    requires 0 <= x < |images|
    ensures RequestsFor(indices + [x], images) == RequestsFor(indices, images) + [LoadRequest(x, images[x].src)]
  {
  }

  /** The specification of the effect: one request per window index not already loaded. */
  function PreloadRequests(currentIndex: int, meta: ImagesMetadataResponse, loadedImages: set<int>): seq<LoadRequest>
    requires Consistent(meta) && 0 <= currentIndex < meta.totalImages
  {
    UniqueWindowShape(currentIndex, meta.totalImages);
    var u := Dedup(WindowIndices(currentIndex, meta.totalImages));
    PendingWithin(u, loadedImages, meta.totalImages);
    RequestsFor(Pending(u, loadedImages), meta.images)
  }

  lemma PendingWithin(indices: seq<int>, loaded: set<int>, bound: int)
    requires IndicesBelow(indices, bound)
    ensures IndicesBelow(Pending(indices, loaded), bound)
  {
    var p := Pending(indices, loaded);
    forall k | 0 <= k < |p|
      ensures 0 <= p[k] < bound
    {
      assert p[k] in indices;
    }
  }

  /**
   * What the effect promises: no request for a loaded index, no index requested
   * twice, every requested index in the window, and every window index that is
   * not loaded requested.
   */
  lemma PreloadRequestsSound(currentIndex: int, meta: ImagesMetadataResponse, loadedImages: set<int>)
    requires Consistent(meta) && 0 <= currentIndex < meta.totalImages
    ensures var r := PreloadRequests(currentIndex, meta, loadedImages);
      var w := WindowIndices(currentIndex, meta.totalImages);
      (forall k :: 0 <= k < |r| ==> r[k].index !in loadedImages && r[k].index in w && r[k].src == meta.images[r[k].index].src) &&
      (forall j, k :: 0 <= j < k < |r| ==> r[j].index != r[k].index) &&
      (forall x :: x in w && x !in loadedImages ==> exists k :: 0 <= k < |r| && r[k].index == x)
  {
    var w := WindowIndices(currentIndex, meta.totalImages);
    UniqueWindowShape(currentIndex, meta.totalImages);
    var p := Pending(Dedup(w), loadedImages);
    var r := PreloadRequests(currentIndex, meta, loadedImages);
    assert forall k :: 0 <= k < |r| ==> r[k].index == p[k];
    forall x | x in w && x !in loadedImages
      ensures exists k :: 0 <= k < |r| && r[k].index == x
    {
      assert x in p;
      var k :| 0 <= k < |p| && p[k] == x;
      assert r[k].index == x;
    }
  }

  /** The requests go out in the order in which the window first lists their indices. */
  lemma PreloadRequestsInWindowOrder(currentIndex: int, meta: ImagesMetadataResponse, loadedImages: set<int>)
    requires Consistent(meta) && 0 <= currentIndex < meta.totalImages
    ensures var r := PreloadRequests(currentIndex, meta, loadedImages);
      var w := WindowIndices(currentIndex, meta.totalImages);
      forall j, k :: 0 <= j < k < |r| ==>
        r[j].index in w && r[k].index in w && FirstIndex(w, r[j].index) < FirstIndex(w, r[k].index)
  {
    var w := WindowIndices(currentIndex, meta.totalImages);
    UniqueWindowShape(currentIndex, meta.totalImages);
    var u := Dedup(w);
    var p := Pending(u, loadedImages);
    var r := PreloadRequests(currentIndex, meta, loadedImages);
    DedupInFirstOccurrenceOrder(w);
    PendingInFirstOccurrenceOrder(u, loadedImages);
    forall j, k | 0 <= j < k < |r|
      ensures r[j].index in w && r[k].index in w && FirstIndex(w, r[j].index) < FirstIndex(w, r[k].index)
    {
      assert r[j].index == p[j] && r[k].index == p[k];
      assert p[j] in p && p[k] in p;
      var a, b := FirstIndex(u, p[j]), FirstIndex(u, p[k]);
      assert a < b && u[a] == p[j] && u[b] == p[k];
    }
  }

  /** The preload effect: nothing without metadata, otherwise the requests of `PreloadRequests`, issued in order. */
  method PreloadEffect(currentIndex: int, imageMetadata: Option<ImagesMetadataResponse>, loadedImages: set<int>)
    returns (requests: seq<LoadRequest>)
    requires imageMetadata.Some? ==>
      Consistent(imageMetadata.value) && 0 <= currentIndex < imageMetadata.value.totalImages
    ensures imageMetadata.None? ==> requests == []
    ensures imageMetadata.Some? ==> requests == PreloadRequests(currentIndex, imageMetadata.value, loadedImages)
  {
    requests := [];
    if imageMetadata.None? {
      return;
    }
    var meta := imageMetadata.value;
    var totalImages := meta.totalImages;
    var uniqueIndices := Dedup(WindowIndices(currentIndex, totalImages));
    UniqueWindowShape(currentIndex, totalImages);
    requests := RequestEach(uniqueIndices, loadedImages, meta.images);
  }

  /** `uniqueIndices.forEach(...)`: one request per index not loaded yet, in order. */
  method RequestEach(uniqueIndices: seq<int>, loadedImages: set<int>, images: seq<ImageData>)
    returns (requests: seq<LoadRequest>)
    requires IndicesBelow(uniqueIndices, |images|)
    ensures IndicesBelow(Pending(uniqueIndices, loadedImages), |images|) &&
      requests == RequestsFor(Pending(uniqueIndices, loadedImages), images)
  {
    requests := [];
    var i := 0;
    PendingWithin(uniqueIndices[..i], loadedImages, |images|);
    while i < |uniqueIndices|
      invariant 0 <= i <= |uniqueIndices|
      invariant IndicesBelow(Pending(uniqueIndices[..i], loadedImages), |images|)
      invariant requests == RequestsFor(Pending(uniqueIndices[..i], loadedImages), images)
    {
      var index := uniqueIndices[i];
      ghost var before := Pending(uniqueIndices[..i], loadedImages);
      assert uniqueIndices[..i + 1][..i] == uniqueIndices[..i];
      PendingWithin(uniqueIndices[..i + 1], loadedImages, |images|);
      if index !in loadedImages {
        RequestsForSnoc(before, index, images);
        requests := requests + [LoadRequest(index, images[index].src)];
      }
      i := i + 1;
    }
    assert uniqueIndices[..i] == uniqueIndices;
  }

  /** Every window index, the current one included, is loaded or requested by the effect. */
  lemma CurrentLoadedOrRequested(currentIndex: int, totalImages: int, loadedImages: set<int>)
    requires 0 <= currentIndex < totalImages
    ensures currentIndex in loadedImages ||
      currentIndex in Pending(Dedup(WindowIndices(currentIndex, totalImages)), loadedImages)
  {
    assert currentIndex in WindowIndices(currentIndex, totalImages);
  }

  /**
   * Fed the catalogue as written, the "full image" preloader fetches thumbnail
   * files; fed the full-size catalogue, every request goes to `carBig`.
   */
  lemma PreloadFolder(currentIndex: int, loadedImages: set<int>)
    requires 0 <= currentIndex < TOTAL_IMAGES
    ensures var r := PreloadRequests(currentIndex, FetchAllImagesMetadata(), loadedImages);
      forall k :: 0 <= k < |r| ==> r[k].src == CreateImagePath(r[k].index, true)
    ensures var r := PreloadRequests(currentIndex, FetchAllFullSizeMetadata(), loadedImages);
      forall k :: 0 <= k < |r| ==> r[k].src == CreateImagePath(r[k].index, false)
  {
    PreloadFolderOf(currentIndex, FetchAllImagesMetadata(), loadedImages, true);
    PreloadFolderOf(currentIndex, FetchAllFullSizeMetadata(), loadedImages, false);
  }

  /** A catalogue whose every entry points into one folder gets requests into that folder only. */
  lemma PreloadFolderOf(currentIndex: int, meta: ImagesMetadataResponse, loadedImages: set<int>, isThumb: bool)
    requires 0 <= currentIndex < TOTAL_IMAGES
    requires meta.totalImages == TOTAL_IMAGES == |meta.images|
    requires forall i :: 0 <= i < |meta.images| ==> meta.images[i].src == CreateImagePath(i, isThumb)
    ensures Consistent(meta)
    ensures var r := PreloadRequests(currentIndex, meta, loadedImages);
      forall k :: 0 <= k < |r| ==> r[k].src == CreateImagePath(r[k].index, isThumb)
  {
    PreloadRequestsSound(currentIndex, meta, loadedImages);
    UniqueWindowShape(currentIndex, TOTAL_IMAGES);
  }

  /** Ten images, current index 0: the window is 8, 9, 0, 1, 2. */
  lemma TenImageWindow()
    ensures Dedup(WindowIndices(0, 10)) == [8, 9, 0, 1, 2]
  {
    WindowDistinct(0, 10);
    WindowValues(0, 10);
    assert WindowIndices(0, 10) == [8, 9, 0, 1, 2];
  }

  /** Appending keeps a seen element out and a new one at the end. */
  lemma DedupSnoc(s: seq<int>, x: int)
    ensures Dedup(s + [x]) == if x in Dedup(s) then Dedup(s) else Dedup(s) + [x]
  {
    assert (s + [x])[..|s|] == s;
  }

  /** Three images, current index 0: the window 1, 2, 0, 1, 2 keeps its first occurrences 1, 2, 0. */
  lemma {:induction false} ThreeImageWindow()
    ensures WindowIndices(0, 3) == [1, 2, 0, 1, 2]
    ensures Dedup(WindowIndices(0, 3)) == [1, 2, 0]
  {
    ThreeImageIndices();
    DedupRepeatedTail(1, 2, 0);
  }

  lemma ThreeImageIndices()
    ensures WindowIndices(0, 3) == [1, 2, 0, 1, 2]
  {
    WindowValues(0, 3);
  }

  /** A window that wraps onto itself repeats its first two entries; the `Set` drops the repeats. */
  lemma {:induction false} DedupRepeatedTail(a: int, b: int, c: int)
    requires a != b && b != c && a != c
    ensures Dedup([a, b, c, a, b]) == [a, b, c]
  {
    var s := [a, b, c];
    assert NoDups(s);
    DedupSnoc(s, a);
    DedupSnoc(s + [a], b);
    assert s + [a] + [b] == [a, b, c, a, b];
  }

  /** The hook's `loadedImages` state. */
  class Preloader {
    var loadedImages: set<int>

    constructor ()
      ensures loadedImages == {}
    {
      loadedImages := {};
    }

    /** The `onload` callback: the loaded set grows by the index and loses nothing. */
    method OnImageLoaded(index: int)
      modifies this
      ensures loadedImages == old(loadedImages) + {index}
    {
      loadedImages := loadedImages + {index};
    }

    /** `isCurrentImageLoaded`. */
    function IsCurrentImageLoaded(currentIndex: int): (r: bool)
      reads this
      ensures r <==> currentIndex in loadedImages
    {
      currentIndex in loadedImages
    }
  }
}
