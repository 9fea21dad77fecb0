/**
 * Slide-index arithmetic shared by the two stand-alone viewers
 * (`src/components/ImageViewer.tsx` and `src/components/reactZoomPanPinch/Viwer.tsx`
 * carry textually identical copies): wrap-around prev/next over 60 images,
 * the image path builder and the append-only neighbour preload list.
 */
module Slides {
  import opened JsNumber
  import opened Seqs
  import ImageApi

  /**
   * Both viewers hard-code the image count. It must agree with
   * `ImageApi.TOTAL_IMAGES`, which the catalogue hard-codes separately.
   */
  const TOTAL_IMAGES: nat := 60

  predicate InRange(i: int) {
    0 <= i < TOTAL_IMAGES
  }

  /** `(prev - 1 + TOTAL_IMAGES) % TOTAL_IMAGES` with JavaScript's remainder. */
  function PrevIndex(i: int): (r: int)
    ensures InRange(i) ==> InRange(r)
    ensures InRange(i) && i == 0 ==> r == TOTAL_IMAGES - 1
    ensures InRange(i) && i > 0 ==> r == i - 1
  {
    JsRem(i - 1 + TOTAL_IMAGES, TOTAL_IMAGES)
  }

  /** `(prev + 1) % TOTAL_IMAGES` with JavaScript's remainder. */
  function NextIndex(i: int): (r: int)
    ensures InRange(i) ==> InRange(r)
    ensures InRange(i) && i == TOTAL_IMAGES - 1 ==> r == 0
    ensures InRange(i) && i < TOTAL_IMAGES - 1 ==> r == i + 1
  {
    JsRem(i + 1, TOTAL_IMAGES)
  }

  /** Going back and then forward, or forward and then back, returns to the start. */
  lemma PrevNextInverse(i: int)
    requires InRange(i)
    ensures NextIndex(PrevIndex(i)) == i
    ensures PrevIndex(NextIndex(i)) == i
  {
  }

  /** `n` presses of "next". */
  function NextTimes(i: int, n: nat): int {
    if n == 0 then i else NextIndex(NextTimes(i, n - 1))
  }

  /** `n` presses of "prev". */
  function PrevTimes(i: int, n: nat): int {
    if n == 0 then i else PrevIndex(PrevTimes(i, n - 1))
  }

  /** Any number of "next" presses lands on the index `n` places further, modulo 60. */
  lemma {:induction false} NextTimesModular(i: int, n: nat)
    requires InRange(i)
    ensures NextTimes(i, n) == (i + n) % TOTAL_IMAGES
  {
    if n > 0 {
      NextTimesModular(i, n - 1);
      NextStep(NextTimes(i, n - 1), i + n - 1);
    }
  }

  /** One "next" from `a % 60` lands on `(a + 1) % 60`. */
  lemma NextStep(x: int, a: int)
    requires InRange(x) && x == a % TOTAL_IMAGES
    ensures NextIndex(x) == (a + 1) % TOTAL_IMAGES
  {
    ModSucc(a);
  }

  /** One "prev" from `a % 60` lands on `(a - 1) % 60`. */
  lemma PrevStep(x: int, a: int)
    requires InRange(x) && x == a % TOTAL_IMAGES
    ensures PrevIndex(x) == (a - 1) % TOTAL_IMAGES
  {
    ModPred(a);
  }

  /** The remainder of a successor: one more, or 0 after 59. */
  lemma ModSucc(a: int)
    ensures (a + 1) % TOTAL_IMAGES == if a % TOTAL_IMAGES == TOTAL_IMAGES - 1 then 0 else a % TOTAL_IMAGES + 1
  {
    var q, r := a / TOTAL_IMAGES, a % TOTAL_IMAGES;
    if r == TOTAL_IMAGES - 1 {
      ModUnique(a + 1, TOTAL_IMAGES, q + 1, 0);
    } else {
      ModUnique(a + 1, TOTAL_IMAGES, q, r + 1);
    }
  }

  /** The remainder of a predecessor: one less, or 59 before 0. */
  lemma ModPred(a: int)
    ensures (a - 1) % TOTAL_IMAGES == if a % TOTAL_IMAGES == 0 then TOTAL_IMAGES - 1 else a % TOTAL_IMAGES - 1
  {
    var q, r := a / TOTAL_IMAGES, a % TOTAL_IMAGES;
    if r == 0 {
      ModUnique(a - 1, TOTAL_IMAGES, q - 1, TOTAL_IMAGES - 1);
    } else {
      ModUnique(a - 1, TOTAL_IMAGES, q, r - 1);
    }
  }

  /** Any number of "prev" presses lands on the index `n` places back, modulo 60. */
  lemma {:induction false} PrevTimesModular(i: int, n: nat)
    requires InRange(i)
    ensures PrevTimes(i, n) == (i - n) % TOTAL_IMAGES
  {
    if n > 0 {
      PrevTimesModular(i, n - 1);
      PrevStep(PrevTimes(i, n - 1), i - n + 1);
    }
  }

  /** `getImagePath(index, isThumb)` of both viewers: the catalogue path under `/src`. */
  function GetImagePath(index: int, isThumb: bool): (path: string)
    ensures path == "/src" + ImageApi.CreateImagePath(index, isThumb)
  {
    var num := ImageApi.FileNumber(index);
    var path := "/src/assets/images/car/" + ImageApi.Folder(isThumb) + "/car_" + num + ".jpeg";
    ViewerPath(isThumb, num);
    path
  }

  /** The viewer's template is "/src" followed by the catalogue's template. */
  lemma ViewerPath(isThumb: bool, num: string)
    ensures "/src/assets/images/car/" + ImageApi.Folder(isThumb) + "/car_" + num + ".jpeg"
         == "/src" + (ImageApi.PathPrefix(isThumb) + num + ".jpeg")
  {
    ViewerPrefix(isThumb);
    ConcatAssoc("/src", ImageApi.PathPrefix(isThumb), num + ".jpeg");
  }

  lemma ViewerPrefix(isThumb: bool)
    ensures "/src/assets/images/car/" + ImageApi.Folder(isThumb) + "/car_" == "/src" + ImageApi.PathPrefix(isThumb)
  {
    assert "/src/assets/images/car/" == "/src" + "/assets/images/car/";
  }

  lemma ConcatAssoc<T>(a: seq<T>, b: seq<T>, c: seq<T>)
    ensures a + b + c == a + (b + c)
  {
  }

  /** The full-size paths of the given images, in order (what the preload effect requests). */
  function FullSizePaths(indices: seq<int>): (paths: seq<string>)
    ensures |paths| == |indices|
    ensures forall k :: 0 <= k < |indices| ==> paths[k] == GetImagePath(indices[k], false)
  {
    seq(|indices|, k requires 0 <= k < |indices| => GetImagePath(indices[k], false))
  }

  /** Two viewer paths coincide only for the same image and the same folder. */
  lemma {:induction false} GetImagePathInjective(i: int, t: bool, j: int, u: bool)
    requires i >= 0 && j >= 0 && GetImagePath(i, t) == GetImagePath(j, u)
    ensures i == j && t == u
  {
    assert ImageApi.CreateImagePath(i, t) == GetImagePath(i, t)[4..];
    ImageApi.CreateImagePathInjective(i, t, j, u);
  }

  predicate AllInRange(s: seq<int>) {
    forall k :: 0 <= k < |s| ==> InRange(s[k])
  }

  /**
   * The neighbour-preload effect on the `preloadedIndexes` list: both
   * neighbours are checked against the list as the effect saw it, and each
   * missing one is appended (the functional updates apply in order).
   */
  function PreloadNeighbours(preloaded: seq<int>, current: int): (r: seq<int>)
    ensures |preloaded| <= |r| <= |preloaded| + 2 && r[..|preloaded|] == preloaded
    ensures PrevIndex(current) in r && NextIndex(current) in r
    ensures forall x :: x in r[|preloaded|..] ==> x !in preloaded
  {
    var prev := PrevIndex(current);
    var next := NextIndex(current);
    preloaded + (if prev !in preloaded then [prev] else []) + (if next !in preloaded then [next] else [])
  }

  /** The list stays free of repeats and within range: with 60 images the two neighbours differ. */
  lemma PreloadNeighboursKeepsInvariant(preloaded: seq<int>, current: int)
    requires InRange(current) && NoDups(preloaded) && AllInRange(preloaded)
    ensures NoDups(PreloadNeighbours(preloaded, current))
    ensures AllInRange(PreloadNeighbours(preloaded, current))
  {
    assert PrevIndex(current) != NextIndex(current);
  }

  /** The effect as two appends: what it adds comes after the old list, which it keeps valid. */
  lemma PreloadNeighboursAppends(preloaded: seq<int>, current: int, appended: seq<int>)
    requires InRange(current) && NoDups(preloaded) && AllInRange(preloaded)
    requires appended == (if PrevIndex(current) !in preloaded then [PrevIndex(current)] else []) +
      (if NextIndex(current) !in preloaded then [NextIndex(current)] else [])
    ensures preloaded + appended == PreloadNeighbours(preloaded, current)
    ensures (preloaded + appended)[|preloaded|..] == appended
    ensures NoDups(preloaded + appended) && AllInRange(preloaded + appended)
  {
    PreloadNeighboursKeepsInvariant(preloaded, current);
  }

  /**
   * The body of both viewers' preload effect: each neighbour missing from the
   * list is requested and appended, prev first.
   */
  method PreloadNeighboursEffect(preloaded: seq<int>, current: int) returns (updated: seq<int>, requested: seq<string>)
    requires InRange(current) && NoDups(preloaded) && AllInRange(preloaded)
    ensures updated == PreloadNeighbours(preloaded, current)
    ensures NoDups(updated) && AllInRange(updated)
    ensures requested == FullSizePaths(updated[|preloaded|..])
  {
    var prevIndex := PrevIndex(current);
    var nextIndex := NextIndex(current);
    var appended: seq<int> := [];
    if prevIndex !in preloaded {
      appended := appended + [prevIndex];
    }
    if nextIndex !in preloaded {
      appended := appended + [nextIndex];
    }
    PreloadNeighboursAppends(preloaded, current, appended);
    updated := preloaded + appended;
    requested := FullSizePaths(appended);
  }

  /** Running the effect again (it re-runs when the list changes) appends nothing. */
  lemma PreloadNeighboursIdempotent(preloaded: seq<int>, current: int)
    ensures PreloadNeighbours(PreloadNeighbours(preloaded, current), current) == PreloadNeighbours(preloaded, current)
  {
  }

  /** Exactly one thumbnail is highlighted: the one at the current index. */
  function Highlights(current: int): (h: seq<bool>)
    ensures |h| == TOTAL_IMAGES
    ensures InRange(current) ==> (set k | 0 <= k < |h| && h[k]) == {current}
  {
    var h := seq(TOTAL_IMAGES, k requires 0 <= k => current == k);
    assert InRange(current) ==> h[current];
    h
  }

  /** A navigation request from a key or a button. */
  datatype SlideStep = GoPrev | GoNext

  function ApplyStep(step: SlideStep, i: int): (r: int)
    ensures InRange(i) ==> InRange(r)
  {
    match step
    case GoPrev => PrevIndex(i)
    case GoNext => NextIndex(i)
  }

  /** Steps applied one after another. */
  function ApplySteps(steps: seq<SlideStep>, i: int): (r: int)
    ensures InRange(i) ==> InRange(r)
  {
    if steps == [] then i else ApplySteps(steps[1..], ApplyStep(steps[0], i))
  }
}
