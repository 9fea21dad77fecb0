/**
 * The zoomable viewer of `src/components/reactZoomPanPinch/Viwer.tsx`:
 * `currentIndex`, the append-only `preloadedIndexes`, the arrow-key listener
 * and the "n / 60" counter.
 */
module ViewerComponent {
  import opened Wrappers
  import opened Seqs
  import opened Slides
  import ImageViewerComponent

  /**
   * The `keydown` handler: two independent `if`s, so a key could in principle
   * trigger both; it triggers at most one, the same as the else-if chain.
   */
  function KeySteps(key: string): (steps: seq<SlideStep>)
    ensures |steps| <= 1
    ensures steps == match ImageViewerComponent.KeyStep(key)
      case Some(step) => [step]
      case None => []
  {
    (if key == "ArrowLeft" then [GoPrev] else []) + (if key == "ArrowRight" then [GoNext] else [])
  }

  /** The counter reads `currentIndex + 1` out of `TOTAL_IMAGES`. */
  function Counter(currentIndex: int): (c: (int, int))
    ensures c.1 == TOTAL_IMAGES
    ensures InRange(currentIndex) ==> 1 <= c.0 <= c.1
    ensures c.0 - 1 == currentIndex
  {
    (currentIndex + 1, TOTAL_IMAGES)
  }

  class Viewer {
    var currentIndex: int
    var preloadedIndexes: seq<int>

    ghost predicate Valid()
      reads this
    {
      InRange(currentIndex) && NoDups(preloadedIndexes) && AllInRange(preloadedIndexes)
    }

    constructor ()
      ensures Valid()
      ensures currentIndex == 0 && preloadedIndexes == []
    {
      currentIndex := 0;
      preloadedIndexes := [];
    }

    method HandlePrev()
      requires Valid()
      modifies this`currentIndex
      ensures Valid() && currentIndex == PrevIndex(old(currentIndex))
    {
      currentIndex := PrevIndex(currentIndex);
    }

    method HandleNext()
      requires Valid()
      modifies this`currentIndex
      ensures Valid() && currentIndex == NextIndex(old(currentIndex))
    {
      currentIndex := NextIndex(currentIndex);
    }

    /** The preload effect, as in the other viewer: missing neighbours are preloaded and appended. */
    method RunPreloadEffect() returns (requested: seq<string>)
      requires Valid()
      modifies this`preloadedIndexes
      ensures Valid()
      ensures preloadedIndexes == PreloadNeighbours(old(preloadedIndexes), currentIndex)
      ensures requested == FullSizePaths(preloadedIndexes[|old(preloadedIndexes)|..])
    {
      preloadedIndexes, requested := PreloadNeighboursEffect(preloadedIndexes, currentIndex);
    }

    /** The `keydown` listener: the two `if`s run in turn. */
    method HandleKeyPress(key: string)
      requires Valid()
      modifies this`currentIndex
      ensures Valid()
      ensures currentIndex == ApplySteps(KeySteps(key), old(currentIndex))
    {
      if key == "ArrowLeft" {
        HandlePrev();
      }
      if key == "ArrowRight" {
        HandleNext();
      }
    }
  }
}
