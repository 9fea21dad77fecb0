/**
 * The stand-alone viewer of `src/components/ImageViewer.tsx`: its state cells
 * (`currentIndex`, `preloadedIndexes`, `isExpanded`) and the handlers and
 * effects that update them.
 */
module ImageViewerComponent {
  import opened Wrappers
  import opened Seqs
  import opened Slides

  /** The window `keydown` handler: an if / else-if chain on the key. */
  function KeyStep(key: string): (s: Option<SlideStep>)
    ensures s == Some(GoPrev) <==> key == "ArrowLeft"
    ensures s == Some(GoNext) <==> key == "ArrowRight"
    ensures s == None <==> key != "ArrowLeft" && key != "ArrowRight"
  {
    if key == "ArrowLeft" then Some(GoPrev)
    else if key == "ArrowRight" then Some(GoNext)
    else None
  }

  class ImageViewer {
    var currentIndex: int
    var preloadedIndexes: seq<int>
    var isExpanded: bool

    ghost predicate Valid()
      reads this
    {
      InRange(currentIndex) && NoDups(preloadedIndexes) && AllInRange(preloadedIndexes)
    }

    constructor ()
      ensures Valid()
      ensures currentIndex == 0 && preloadedIndexes == [] && !isExpanded
    {
      currentIndex := 0;
      preloadedIndexes := [];
      isExpanded := false;
    }

    method HandlePrev()
      requires Valid()
      modifies this`currentIndex
      ensures Valid() && currentIndex == PrevIndex(old(currentIndex))
    {
      currentIndex := PrevIndex(currentIndex);
    }

    method HandleNext()
      requires Valid()
      modifies this`currentIndex
      ensures Valid() && currentIndex == NextIndex(old(currentIndex))
    {
      currentIndex := NextIndex(currentIndex);
    }

    /**
     * The preload effect: each neighbour missing from the list is preloaded
     * (its full-size path is returned, in request order) and appended.
     */
    method RunPreloadEffect() returns (requested: seq<string>)
      requires Valid()
      modifies this`preloadedIndexes
      ensures Valid()
      ensures preloadedIndexes == PreloadNeighbours(old(preloadedIndexes), currentIndex)
      ensures requested == FullSizePaths(preloadedIndexes[|old(preloadedIndexes)|..])
    {
      preloadedIndexes, requested := PreloadNeighboursEffect(preloadedIndexes, currentIndex);
    }

    /** Selecting a thumbnail shows that image and closes the panel. */
    method HandleThumbnailClick(index: int)
      requires Valid() && InRange(index)
      modifies this`currentIndex, this`isExpanded
      ensures Valid() && currentIndex == index && !isExpanded
    {
      currentIndex := index;
      isExpanded := false;
    }

    /** The panel toggle button. */
    method ToggleExpanded()
      requires Valid()
      modifies this`isExpanded
      ensures Valid()
      ensures isExpanded == !old(isExpanded)
    {
      isExpanded := !isExpanded;
    }

    /** The panel's close button and the overlay. */
    method CloseExpanded()
      requires Valid()
      modifies this`isExpanded
      ensures Valid()
      ensures !isExpanded
    {
      isExpanded := false;
    }

    /** The window `keydown` listener: ArrowLeft goes back, ArrowRight forward, other keys do nothing. */
    method HandleKeyPress(key: string)
      requires Valid()
      modifies this`currentIndex
      ensures Valid()
      ensures currentIndex == match KeyStep(key)
        case Some(step) => ApplyStep(step, old(currentIndex))
        case None => old(currentIndex)
    {
      if key == "ArrowLeft" {
        HandlePrev();
      } else if key == "ArrowRight" {
        HandleNext();
      }
    }
  }
}
