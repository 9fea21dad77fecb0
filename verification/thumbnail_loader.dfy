/**
 * The thumbnail loader of `src/hooks/useThumbnailLoader.tsx`: `[0, n)` is cut
 * into batches of five; within a batch one load is dispatched per defined
 * entry, in ascending order; a 300 ms pause follows every batch but the last.
 * The run is modelled as the sequence of events it produces (dispatches and
 * pauses); load completions are the separate `OnThumbnailLoaded` event, which
 * may arrive at any time and in any order.
 */
module ThumbnailLoader {
  import opened Wrappers
  import opened JsNumber
  import opened ImageApi

  const BATCH_SIZE: nat := 5
  const BATCH_DELAY_MS: nat := 300

  /** The half-open index range `[start, end)` of one batch. */
  datatype Batch = Batch(start: nat, end: nat)

  /** The outer loop's batches from `batchStart` on. */
  function BatchesFrom(batchStart: nat, total: nat): (bs: seq<Batch>)
    ensures forall k :: 0 <= k < |bs| ==> batchStart <= bs[k].start < bs[k].end <= total
    decreases total - batchStart
  {
    if batchStart >= total then []
    else [Batch(batchStart, Min(batchStart + BATCH_SIZE, total))] + BatchesFrom(batchStart + BATCH_SIZE, total)
  }

  predicate InBatch(b: Batch, i: int) {
    b.start <= i < b.end
  }

  function Batches(total: nat): seq<Batch> {
    BatchesFrom(0, total)
  }

  /** Batch `k` from `batchStart` on covers `[batchStart + 5k, min(batchStart + 5k + 5, total))`. */
  lemma {:induction false} BatchesFromShape(batchStart: nat, total: nat)
    ensures var bs := BatchesFrom(batchStart, total);
      |bs| == (if batchStart >= total then 0 else (total - batchStart + BATCH_SIZE - 1) / BATCH_SIZE) &&
      forall k :: 0 <= k < |bs| ==>
        bs[k] == Batch(batchStart + BATCH_SIZE * k, Min(batchStart + BATCH_SIZE * k + BATCH_SIZE, total))
    decreases total - batchStart
  {
    if batchStart < total {
      var bs := BatchesFrom(batchStart, total);
      BatchesFromShape(batchStart + BATCH_SIZE, total);
      forall k | 1 <= k < |bs|
        ensures bs[k] == Batch(batchStart + BATCH_SIZE * k, Min(batchStart + BATCH_SIZE * k + BATCH_SIZE, total))
      {
        assert bs[k] == BatchesFrom(batchStart + BATCH_SIZE, total)[k - 1];
      }
    }
  }

  /**
   * The batches partition `[0, total)`: there are ceil(total / 5) of them, the
   * first starts at 0, each ends where the next starts, the last ends at
   * `total`, each holds one to five indices, and index `i` lies in batch
   * `i / 5` and in no other.
   */
  lemma BatchesPartition(total: nat)
    ensures var bs := Batches(total);
      |bs| == (total + BATCH_SIZE - 1) / BATCH_SIZE &&
      (total > 0 ==> bs[0].start == 0 && bs[|bs| - 1].end == total) &&
      (forall k :: 0 <= k < |bs| - 1 ==> bs[k].end == bs[k + 1].start) &&
      (forall k :: 0 <= k < |bs| ==> 1 <= bs[k].end - bs[k].start <= BATCH_SIZE) &&
      (forall i, k :: 0 <= i < total && 0 <= k < |bs| ==> (InBatch(bs[k], i) <==> k == i / BATCH_SIZE))
  {
    var bs := Batches(total);
    BatchesFromShape(0, total);
    if total > 0 {
      var last := |bs| - 1;
      assert bs[last].end == total;
    }
    forall i, k | 0 <= i < total && 0 <= k < |bs|
      ensures InBatch(bs[k], i) <==> k == i / BATCH_SIZE
    {
      IndexInBatch(i, k);
    }
  }

  /** Index `i` lies in `[5k, 5k + 5)` exactly when `k` is `i / 5`. */
  lemma IndexInBatch(i: int, k: int)
    requires 0 <= i && 0 <= k
    ensures BATCH_SIZE * k <= i < BATCH_SIZE * k + BATCH_SIZE <==> k == i / BATCH_SIZE
  {
    if BATCH_SIZE * k <= i < BATCH_SIZE * k + BATCH_SIZE {
      ModUnique(i, BATCH_SIZE, k, i - BATCH_SIZE * k);
    }
  }

  /** Twelve images give batches of 5, 5 and 2. */
  lemma TwelveImages()
    ensures Batches(12) == [Batch(0, 5), Batch(5, 10), Batch(10, 12)]
  {
    assert BatchesFrom(10, 12) == [Batch(10, 12)];
    assert BatchesFrom(5, 12) == [Batch(5, 10), Batch(10, 12)];
  }

  /** What one run does, step by step. */
  datatype LoadEvent = Dispatch(index: nat, thumb: ImageData) | Pause(ms: nat)

  /** The inner loop over `[lo, hi)`: a dispatch per defined entry; an undefined one is skipped. */
  function Dispatches(images: seq<Option<ImageData>>, lo: nat, hi: nat): seq<LoadEvent>
    requires lo <= hi <= |images|
    decreases hi - lo
  {
    if lo == hi then []
    else Dispatches(images, lo, hi - 1) + (if images[hi - 1].Some? then [Dispatch(hi - 1, images[hi - 1].value)] else [])
  }

  /** One batch: its dispatches, then a pause unless it is the last batch. */
  function BatchEvents(images: seq<Option<ImageData>>, b: Batch): seq<LoadEvent>
    requires b.start <= b.end <= |images|
  {
    Dispatches(images, b.start, b.end) + (if b.end < |images| then [Pause(BATCH_DELAY_MS)] else [])
  }

  /** The outer loop from `batchStart` on: each batch's events, then the rest. */
  function EventsFrom(images: seq<Option<ImageData>>, batchStart: nat): seq<LoadEvent>
    decreases |images| - batchStart
  {
    if batchStart >= |images| then []
    else BatchEvents(images, Batch(batchStart, Min(batchStart + BATCH_SIZE, |images|))) + EventsFrom(images, batchStart + BATCH_SIZE)
  }

  /**
   * The whole run for the metadata's image list: `None` is absent metadata,
   * an inner `None` an `undefined` array entry.
   */
  function LoadPlan(thumbnails: Option<seq<Option<ImageData>>>): seq<LoadEvent> {
    match thumbnails
    case None => []
    case Some(images) => if |images| == 0 then [] else EventsFrom(images, 0)
  }

  /** `loadThumbnails` (run by the effect): the nested loops produce exactly the planned events. */
  method LoadThumbnails(thumbnails: Option<seq<Option<ImageData>>>) returns (events: seq<LoadEvent>)
    ensures events == LoadPlan(thumbnails)
  {
    events := [];
    if thumbnails.None? || |thumbnails.value| == 0 {
      return;
    }
    var images := thumbnails.value;
    var totalImages := |images|;
    var batchStart: nat := 0;
    while batchStart < totalImages
      invariant events + EventsFrom(images, batchStart) == EventsFrom(images, 0)
      decreases totalImages - batchStart
    {
      var batchEnd := Min(batchStart + BATCH_SIZE, totalImages);
      var dispatched := [];
      var i: nat := batchStart;
      while i < batchEnd
        invariant batchStart <= i <= batchEnd
        invariant dispatched == Dispatches(images, batchStart, i)
      {
        var thumbData := images[i];
        if thumbData.Some? {
          dispatched := dispatched + [Dispatch(i, thumbData.value)];
        }
        i := i + 1;
      }
      ghost var before := events;
      events := events + dispatched;
      if batchEnd < totalImages {
        events := events + [Pause(BATCH_DELAY_MS)];
      }
      EventsFromStep(images, batchStart, before);
      batchStart := batchStart + BATCH_SIZE;
    }
    assert events + [] == events;
  }

  /** One turn of the outer loop: the batch's events, then the rest. */
  lemma EventsFromStep(images: seq<Option<ImageData>>, batchStart: nat, before: seq<LoadEvent>)
    requires batchStart < |images|
    ensures var batchEnd := Min(batchStart + BATCH_SIZE, |images|);
      before + Dispatches(images, batchStart, batchEnd) + (if batchEnd < |images| then [Pause(BATCH_DELAY_MS)] else [])
        + EventsFrom(images, batchStart + BATCH_SIZE) == before + EventsFrom(images, batchStart)
  {
  }

  /** The dispatch events of a run, with the pauses dropped. */
  function DispatchesOnly(events: seq<LoadEvent>): (r: seq<LoadEvent>)
    ensures forall k :: 0 <= k < |r| ==> r[k].Dispatch?
  {
    if events == [] then []
    else DispatchesOnly(events[..|events| - 1]) + (if events[|events| - 1].Dispatch? then [events[|events| - 1]] else [])
  }

  function PauseCount(events: seq<LoadEvent>): nat {
    if events == [] then 0
    else PauseCount(events[..|events| - 1]) + (if events[|events| - 1].Pause? then 1 else 0)
  }

  lemma {:induction false} FiltersDistribute(a: seq<LoadEvent>, b: seq<LoadEvent>)
    ensures DispatchesOnly(a + b) == DispatchesOnly(a) + DispatchesOnly(b)
    ensures PauseCount(a + b) == PauseCount(a) + PauseCount(b)
    decreases |b|
  {
    if b == [] {
      assert a + b == a;
    } else {
      assert (a + b)[..|a + b| - 1] == a + b[..|b| - 1];
      FiltersDistribute(a, b[..|b| - 1]);
    }
  }

  lemma {:induction false} DispatchesHaveNoPause(images: seq<Option<ImageData>>, lo: nat, hi: nat)
    requires lo <= hi <= |images|
    ensures DispatchesOnly(Dispatches(images, lo, hi)) == Dispatches(images, lo, hi)
    ensures PauseCount(Dispatches(images, lo, hi)) == 0
    decreases hi - lo
  {
    if lo < hi {
      var tail := if images[hi - 1].Some? then [Dispatch(hi - 1, images[hi - 1].value)] else [];
      DispatchesHaveNoPause(images, lo, hi - 1);
      FiltersDistribute(Dispatches(images, lo, hi - 1), tail);
      assert DispatchesOnly(tail) == tail by {
        if tail != [] {
          assert tail[..0] == [];
        }
      }
    }
  }

  lemma {:induction false} DispatchesSplit(images: seq<Option<ImageData>>, lo: nat, mid: nat, hi: nat)
    requires lo <= mid <= hi <= |images|
    ensures Dispatches(images, lo, mid) + Dispatches(images, mid, hi) == Dispatches(images, lo, hi)
    decreases hi - mid
  {
    if mid < hi {
      DispatchesSplit(images, lo, mid, hi - 1);
    }
  }

  lemma PauseFilters(pause: seq<LoadEvent>)
    requires pause == [] || pause == [Pause(BATCH_DELAY_MS)]
    ensures DispatchesOnly(pause) == [] && PauseCount(pause) == |pause|
  {
    if pause != [] {
      assert pause[..0] == [];
    }
  }

  /** The outer loop runs once per batch. */
  lemma BatchCountStep(batchStart: nat, total: nat)
    requires batchStart < total
    ensures |BatchesFrom(batchStart, total)| == 1 + |BatchesFrom(batchStart + BATCH_SIZE, total)|
  {
  }

  /** From `batchStart` on, a run dispatches exactly the defined entries of `[batchStart, total)` and pauses between batches. */
  lemma {:induction false} EventsFromBatch(images: seq<Option<ImageData>>, batchStart: nat)
    requires batchStart < |images|
    ensures DispatchesOnly(EventsFrom(images, batchStart)) == Dispatches(images, batchStart, |images|)
    ensures PauseCount(EventsFrom(images, batchStart)) == |BatchesFrom(batchStart, |images|)| - 1
    decreases |images| - batchStart
  {
    var n := |images|;
    var batchEnd := Min(batchStart + BATCH_SIZE, n);
    var first := Dispatches(images, batchStart, batchEnd);
    var pause := if batchEnd < n then [Pause(BATCH_DELAY_MS)] else [];
    var rest := EventsFrom(images, batchStart + BATCH_SIZE);
    assert EventsFrom(images, batchStart) == first + pause + rest;
    BatchCountStep(batchStart, n);
    assert DispatchesOnly(first + pause + rest) == first + DispatchesOnly(rest) by {
      DispatchesHaveNoPause(images, batchStart, batchEnd);
      PauseFilters(pause);
      FiltersDistribute(first, pause);
      FiltersDistribute(first + pause, rest);
      assert first + [] == first;
    }
    assert PauseCount(first + pause + rest) == |pause| + PauseCount(rest) by {
      DispatchesHaveNoPause(images, batchStart, batchEnd);
      PauseFilters(pause);
      FiltersDistribute(first, pause);
      FiltersDistribute(first + pause, rest);
    }
    if batchEnd < n {
      EventsFromBatch(images, batchStart + BATCH_SIZE);
      DispatchesSplit(images, batchStart, batchEnd, n);
    } else {
      assert BatchesFrom(batchStart + BATCH_SIZE, n) == [];
      assert first + [] == first;
    }
  }

  /**
   * A run dispatches every defined entry exactly once, in ascending index
   * order, and pauses 300 ms between consecutive batches: batches - 1 pauses.
   */
  lemma RunDispatchesEachOnce(images: seq<Option<ImageData>>)
    requires |images| > 0
    ensures DispatchesOnly(LoadPlan(Some(images))) == Dispatches(images, 0, |images|)
    ensures PauseCount(LoadPlan(Some(images))) == |Batches(|images|)| - 1
    ensures forall k :: 0 <= k < |LoadPlan(Some(images))| && LoadPlan(Some(images))[k].Pause? ==>
      LoadPlan(Some(images))[k].ms == BATCH_DELAY_MS
  {
    EventsFromBatch(images, 0);
    PausesAre300(images, 0);
  }

  lemma {:induction false} PausesAre300(images: seq<Option<ImageData>>, batchStart: nat)
    ensures forall k :: 0 <= k < |EventsFrom(images, batchStart)| && EventsFrom(images, batchStart)[k].Pause? ==>
      EventsFrom(images, batchStart)[k].ms == BATCH_DELAY_MS
    decreases |images| - batchStart
  {
    if batchStart < |images| {
      var batchEnd := Min(batchStart + BATCH_SIZE, |images|);
      PausesAre300(images, batchStart + BATCH_SIZE);
      NoPauseInDispatches(images, batchStart, batchEnd);
    }
  }

  lemma {:induction false} NoPauseInDispatches(images: seq<Option<ImageData>>, lo: nat, hi: nat)
    requires lo <= hi <= |images|
    ensures forall k :: 0 <= k < |Dispatches(images, lo, hi)| ==> Dispatches(images, lo, hi)[k].Dispatch?
    decreases hi - lo
  {
    if lo < hi {
      NoPauseInDispatches(images, lo, hi - 1);
    }
  }

  /**
   * The dispatches over `[lo, hi)`: strictly ascending indices, each carrying
   * its own entry, and an index is dispatched exactly when its entry is
   * defined (an undefined entry does not stop the rest of its batch).
   */
  lemma {:induction false} DispatchesAscending(images: seq<Option<ImageData>>, lo: nat, hi: nat)
    requires lo <= hi <= |images|
    ensures var d := Dispatches(images, lo, hi);
      (forall k :: 0 <= k < |d| ==>
        (d[k].Dispatch? && lo <= d[k].index < hi && images[d[k].index] == Some(d[k].thumb))) &&
      (forall j, k :: 0 <= j < k < |d| ==> d[j].index < d[k].index) &&
      (forall i :: lo <= i < hi ==> (images[i].Some? <==> exists k :: 0 <= k < |d| && d[k].index == i))
    decreases hi - lo
  {
    if lo < hi {
      DispatchesAscending(images, lo, hi - 1);
      NoPauseInDispatches(images, lo, hi - 1);
      var d := Dispatches(images, lo, hi);
      var p := Dispatches(images, lo, hi - 1);
      assert d[..|p|] == p;
      forall i | lo <= i < hi && images[i].Some?
        ensures exists k :: 0 <= k < |d| && d[k].index == i
      {
        if i == hi - 1 {
          assert d[|d| - 1].index == i;
        } else {
          var k :| 0 <= k < |p| && p[k].index == i;
          assert d[k].index == i;
        }
      }
    }
  }

  /** With absent or empty metadata nothing is dispatched. */
  lemma NothingWithoutMetadata()
    ensures LoadPlan(None) == [] && LoadPlan(Some([])) == []
  {
  }

  /** The hook's `loadedThumbnails` map, keyed by thumbnail id. */
  class ThumbnailStore {
    var loadedThumbnails: map<int, ImageData>

    constructor ()
      ensures loadedThumbnails == map[]
    {
      loadedThumbnails := map[];
    }

    /** An `onload` callback: a copy of the map with `id -> thumbData` set; every other entry is kept. */
    method OnThumbnailLoaded(thumbData: ImageData)
      modifies this
      ensures loadedThumbnails == old(loadedThumbnails)[thumbData.id := thumbData]
      ensures forall id :: id in old(loadedThumbnails) && id != thumbData.id ==>
        id in loadedThumbnails && loadedThumbnails[id] == old(loadedThumbnails)[id]
    {
      var newMap := loadedThumbnails;
      newMap := newMap[thumbData.id := thumbData];
      loadedThumbnails := newMap;
    }
  }
}
