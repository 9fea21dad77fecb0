/**
 * The image catalogue builders of `src/api/imageApi.ts`: the path of each car
 * image and the 60-entry metadata lists returned by the two fetchers (modelled
 * as pure builders; the `async` wrapper adds nothing).
 */
module ImageApi {
  import opened Wrappers
  import opened JsText

  datatype ImageData = ImageData(id: int, src: string, alt: string)

  datatype ImagesMetadataResponse = ImagesMetadataResponse(totalImages: int, images: seq<ImageData>)

  /** The catalogue's hard-coded size; it must agree with `Slides.TOTAL_IMAGES`, the viewers' own copy. */
  const TOTAL_IMAGES: nat := 60

  /** The accessible label prefix, "car image " in Korean. */
  const ALT_PREFIX: string := "자동차 이미지 "

  function Folder(isThumb: bool): string {
    if isThumb then "carThumbnail" else "carBig"
  }

  /** `(index + 1).toString().padStart(3, "0")`. */
  function FileNumber(index: int): (r: string)
    ensures index >= 0 ==> |r| >= 3 && AllDigits(r) && ParseDigits(r) == index + 1
  {
    var s := IntToString(index + 1);
    var r := PadStart(s, 3, '0');
    if index >= 0 then
      assert r == r[..|r| - |s|] + s;
      ParseLeadingZeros(r[..|r| - |s|], s);
      ParseNatToString(index + 1);
      r
    else r
  }

  /** Distinct images have distinct file numbers. */
  lemma FileNumberInjective(i: int, j: int)
    requires i >= 0 && j >= 0 && FileNumber(i) == FileNumber(j)
    ensures i == j
  {
  }

  /** `createImagePath(index, isThumb)`. */
  function CreateImagePath(index: int, isThumb: bool): (path: string)
    ensures index >= 0 ==> FirstDigitRun(path) == Some(FileNumber(index))
    ensures index >= 0 ==> ParseDigits(FirstDigitRun(path).value) == index + 1
  {
    var prefix := PathPrefix(isThumb);
    var path := prefix + FileNumber(index) + ".jpeg";
    if index >= 0 then
      FirstDigitRunOf(prefix, FileNumber(index), ".jpeg");
      path
    else path
  }

  /** Everything in a catalogue path before the file number; it holds no digit. */
  function PathPrefix(isThumb: bool): (p: string)
    ensures forall i :: 0 <= i < |p| ==> !IsDigit(p[i])
  {
    var p := "/assets/images/car/" + Folder(isThumb) + "/car_";
    DigitFreeConcat("/assets/images/car/", Folder(isThumb));
    DigitFreeConcat("/assets/images/car/" + Folder(isThumb), "/car_");
    p
  }

  predicate DigitFree(s: string)
  {
    forall i :: 0 <= i < |s| ==> !IsDigit(s[i])
  }

  lemma DigitFreeConcat(a: string, b: string)
    requires DigitFree(a) && DigitFree(b)
    ensures DigitFree(a + b)
  {
    forall i | 0 <= i < |a + b|
      ensures !IsDigit((a + b)[i])
    {
      if i >= |a| {
        assert (a + b)[i] == b[i - |a|];
      }
    }
  }

  /** Two catalogue paths coincide only for the same image and the same folder. */
  lemma {:induction false} CreateImagePathInjective(i: int, t: bool, j: int, u: bool)
    requires i >= 0 && j >= 0
    requires CreateImagePath(i, t) == CreateImagePath(j, u)
    ensures i == j && t == u
  {
    var p := CreateImagePath(i, t);
    assert ParseDigits(FirstDigitRun(p).value) == i + 1 == j + 1;
  }

  function AltText(index: int): string {
    ALT_PREFIX + IntToString(index + 1)
  }

  /** `fetchAllImagesMetadata()`: 60 entries, every one built with `isThumb = true`. */
  function FetchAllImagesMetadata(): (r: ImagesMetadataResponse)
    ensures r.totalImages == |r.images| == TOTAL_IMAGES
    ensures forall i :: 0 <= i < |r.images| ==>
      r.images[i].id == i && r.images[i].src == CreateImagePath(i, true) && r.images[i].alt == AltText(i)
  {
    ImagesMetadataResponse(TOTAL_IMAGES, seq(TOTAL_IMAGES, i requires 0 <= i => ImageData(i, CreateImagePath(i, true), AltText(i))))
  }

  /** `fetchAllThumbnailMetadata()`: the same comprehension as the full-image fetcher. */
  function FetchAllThumbnailMetadata(): (r: ImagesMetadataResponse)
    ensures r.totalImages == |r.images| == TOTAL_IMAGES
    ensures forall i :: 0 <= i < |r.images| ==>
      r.images[i].id == i && r.images[i].src == CreateImagePath(i, true) && r.images[i].alt == AltText(i)
  {
    var images := seq(TOTAL_IMAGES, i requires 0 <= i => ImageData(i, CreateImagePath(i, true), AltText(i)));
    ImagesMetadataResponse(|images|, images)
  }

  /** Both fetchers pass `isThumb = true`, so they return the same catalogue. */
  lemma FetchersAgree()
    ensures FetchAllImagesMetadata() == FetchAllThumbnailMetadata()
  {
    var a := FetchAllImagesMetadata();
    var b := FetchAllThumbnailMetadata();
    assert a.images == b.images;
  }

  /** Catalogue entries are told apart by their id and by their src; the src's file number is id + 1. */
  lemma {:induction false} CatalogueEntriesDistinct(i: int, j: int)
    requires 0 <= i < TOTAL_IMAGES && 0 <= j < TOTAL_IMAGES && i != j
    ensures FetchAllImagesMetadata().images[i].src != FetchAllImagesMetadata().images[j].src
    ensures ParseDigits(FirstDigitRun(FetchAllImagesMetadata().images[i].src).value) == i + 1
  {
    var imgs := FetchAllImagesMetadata().images;
    if imgs[i].src == imgs[j].src {
      CreateImagePathInjective(i, true, j, true);
    }
  }

  /**
   * As written, the catalogue the main viewer renders and preloads points into
   * the thumbnail folder: image 0 is served from `carThumbnail/car_001.jpeg`,
   * never from `carBig`.
   */
  lemma FullCatalogueServesThumbnails(i: int)
    requires 0 <= i < TOTAL_IMAGES
    ensures FetchAllImagesMetadata().images[i].src == CreateImagePath(i, true)
    ensures FetchAllImagesMetadata().images[i].src != CreateImagePath(i, false)
    ensures FetchAllImagesMetadata().images[0].src == "/assets/images/car/carThumbnail/car_001.jpeg"
  {
    if CreateImagePath(i, true) == CreateImagePath(i, false) {
      CreateImagePathInjective(i, true, i, false);
    }
    FirstImagePath();
  }

  lemma FirstImagePath()
    ensures CreateImagePath(0, true) == "/assets/images/car/carThumbnail/car_001.jpeg"
  {
    FirstFileNumber();
    ThumbnailPrefix();
    FirstThumbnailJoined();
  }

  lemma FirstFileNumber()
    ensures FileNumber(0) == "001"
  {
    assert IntToString(1) == "1";
    assert PadStart("1", 3, '0') == "001";
  }

  lemma ThumbnailPrefix()
    ensures PathPrefix(true) == "/assets/images/car/carThumbnail/car_"
  {
  }

  lemma FirstThumbnailJoined()
    ensures "/assets/images/car/carThumbnail/car_" + "001" + ".jpeg" == "/assets/images/car/carThumbnail/car_001.jpeg"
  {
  }

  /** The full-size catalogue as evidently intended: the same ids and alt texts, paths in `carBig`. */
  function FetchAllFullSizeMetadata(): (r: ImagesMetadataResponse)
    ensures r.totalImages == |r.images| == TOTAL_IMAGES
    ensures forall i :: 0 <= i < |r.images| ==>
      r.images[i].id == i && r.images[i].src == CreateImagePath(i, false) && r.images[i].alt == AltText(i)
  {
    var images := seq(TOTAL_IMAGES, i requires 0 <= i => ImageData(i, CreateImagePath(i, false), AltText(i)));
    ImagesMetadataResponse(|images|, images)
  }

  /** No full-size path coincides with any thumbnail path, and entries match the thumbnail catalogue by id. */
  lemma {:induction false} FullSizeAndThumbnailsDisjoint(i: int, j: int)
    requires 0 <= i < TOTAL_IMAGES && 0 <= j < TOTAL_IMAGES
    ensures FetchAllFullSizeMetadata().images[i].src != FetchAllThumbnailMetadata().images[j].src
    ensures FetchAllFullSizeMetadata().images[i].id == FetchAllThumbnailMetadata().images[i].id
    ensures FetchAllFullSizeMetadata().images[i].alt == FetchAllThumbnailMetadata().images[i].alt
  {
    if CreateImagePath(i, false) == CreateImagePath(j, true) {
      CreateImagePathInjective(i, false, j, true);
    }
  }
}
