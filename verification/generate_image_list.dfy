/**
 * The manifest builder of `scripts/generate-image-list.js`: keep the image
 * files of a directory listing, order them by the number in their name and
 * turn each into an entry. The directory listing is a parameter (`None` when
 * the directory is missing or cannot be read); writing the JSON file is not
 * modelled.
 */
module GenerateImageList {
  import opened Wrappers
  import opened JsText
  import opened StableSort
  import ImageApi
  import opened Seqs

  const BIG_IMAGES_DIR: string := "public/assets/images/car/carBig"
  const THUMBNAIL_IMAGES_DIR: string := "public/assets/images/car/carThumbnail"
  const IMAGE_EXTENSIONS: seq<string> := [".jpg", ".jpeg", ".png", ".gif", ".webp"]

  /** A name as a directory listing returns it: a single path component. */
  predicate IsEntryName(name: string)
  {
    '/' !in name
  }

  function LastIndexOf(s: string, c: char): (r: Option<nat>)
    ensures r.None? <==> c !in s
    ensures r.Some? ==> r.value < |s| && s[r.value] == c && forall j :: r.value < j < |s| ==> s[j] != c
  {
    if s == [] then None
    else if s[|s| - 1] == c then Some(|s| - 1)
    else LastIndexOf(s[..|s| - 1], c)
  }

  /**
   * Node's `path.extname` on a single component: from the last dot on,
   * except that a leading dot (`.bashrc`) and the name `..` have none.
   */
  function ExtName(name: string): (ext: string)
    requires IsEntryName(name)
    ensures ext != [] ==>
      |ext| < |name| && ext == name[|name| - |ext|..] && ext[0] == '.' &&
      forall j :: 1 <= j < |ext| ==> ext[j] != '.'
    ensures ext == [] ==> '.' !in name || name == ".." || (name[0] == '.' && '.' !in name[1..])
  {
    match LastIndexOf(name, '.')
    case None => ""
    case Some(d) =>
      if d == 0 || name == ".." then ""
      else
        assert name[d..][0] == '.';
        name[d..]
  }

  /** Each accepted extension is a dot followed by at least three lower-case letters. */
  lemma ExtensionShape(e: string)
    requires e in IMAGE_EXTENSIONS
    ensures |e| >= 4 && e[0] == '.' && forall j :: 1 <= j < |e| ==> 'a' <= e[j] <= 'z'
  {
    assert IMAGE_EXTENSIONS[0] == ".jpg" && IMAGE_EXTENSIONS[1] == ".jpeg";
    assert IMAGE_EXTENSIONS[2] == ".png" && IMAGE_EXTENSIONS[3] == ".gif" && IMAGE_EXTENSIONS[4] == ".webp";
  }

  /** Ends, in any letter case, with one of the five extensions, with something before it. */
  predicate HasImageSuffix(name: string)
  {
    exists e :: e in IMAGE_EXTENSIONS && |e| < |name| && ToLowerAscii(name[|name| - |e|..]) == e
  }

  /** `isImageFile`. */
  function IsImageFile(name: string): (b: bool)
    requires IsEntryName(name)
    ensures b <==> HasImageSuffix(name)
  {
    var b := ToLowerAscii(ExtName(name)) in IMAGE_EXTENSIONS;
    ImageFileIffSuffix(name);
    b
  }

  lemma ImageFileIffSuffix(name: string)
    requires IsEntryName(name)
    ensures ToLowerAscii(ExtName(name)) in IMAGE_EXTENSIONS <==> HasImageSuffix(name)
  {
    var ext := ExtName(name);
    if ToLowerAscii(ext) in IMAGE_EXTENSIONS {
      var e := ToLowerAscii(ext);
      ExtensionShape(e);
      assert |e| == |ext| && ext != [];
      assert name[|name| - |e|..] == ext;
    }
    if HasImageSuffix(name) {
      var e :| e in IMAGE_EXTENSIONS && |e| < |name| && ToLowerAscii(name[|name| - |e|..]) == e;
      ExtOfImageSuffix(name, e);
    }
  }

  /** A name ending in an image extension has exactly that ending as its extension. */
  lemma ExtOfImageSuffix(name: string, e: string)
    requires IsEntryName(name)
    requires e in IMAGE_EXTENSIONS && |e| < |name| && ToLowerAscii(name[|name| - |e|..]) == e
    ensures ExtName(name) == name[|name| - |e|..]
  {
    ExtensionShape(e);
    var k := |name| - |e|;
    var suffix := name[k..];
    assert name[k] == '.' by {
      assert ToLowerChar(suffix[0]) == e[0];
    }
    forall j | k < j < |name|
      ensures name[j] != '.'
    {
      assert ToLowerChar(suffix[j - k]) == e[j - k];
    }
    ExtNameAt(name, k);
  }

  /** A dot that is not the first character and has no dot after it starts the extension. */
  lemma ExtNameAt(name: string, k: nat)
    requires IsEntryName(name) && 0 < k < |name| && |name| >= 3
    requires name[k] == '.' && forall j :: k < j < |name| ==> name[j] != '.'
    ensures ExtName(name) == name[k..]
  {
    LastIndexOfAt(name, '.', k);
  }

  lemma LastIndexOfAt(s: string, c: char, k: nat)
    requires k < |s| && s[k] == c && forall j :: k < j < |s| ==> s[j] != c
    ensures LastIndexOf(s, c) == Some(k)
  {
    assert c in s;
  }

  /** The comparator's key: the first digit run read as an integer, 0 when there is none. */
  function SortKey(name: string): (k: nat)
    ensures (forall i :: 0 <= i < |name| ==> !IsDigit(name[i])) ==> k == 0
  {
    match FirstDigitRun(name)
    case None => 0
    case Some(run) => ParseDigits(run)
  }

  /**
   * After a digit-free prefix, a zero-padded numeral followed by a non-digit
   * is read back as its number: `car_007.jpeg` has key 7.
   */
  lemma SortKeyReadsNumber(prefix: string, zeros: string, n: nat, suffix: string)
    requires forall i :: 0 <= i < |prefix| ==> !IsDigit(prefix[i])
    requires forall i :: 0 <= i < |zeros| ==> zeros[i] == '0'
    requires suffix != [] ==> !IsDigit(suffix[0])
    ensures SortKey(prefix + zeros + NatToString(n) + suffix) == n
  {
    var numeral := NatToString(n);
    var digits := zeros + numeral;
    ParseLeadingZeros(zeros, numeral);
    ParseNatToString(n);
    assert ParseDigits(digits) == n;
    var name := prefix + digits + suffix;
    FirstDigitRunOf(prefix, digits, suffix);
    assert SortKey(name) == n;
    RegroupMiddle(prefix, zeros, numeral, suffix);
  }

  lemma RegroupMiddle(a: string, b: string, c: string, d: string)
    ensures a + b + c + d == a + (b + c) + d
  {
  }

  /** `.filter(isImageFile)`. */
  function FilterImages(files: seq<string>): (r: seq<string>)
    requires forall f :: f in files ==> IsEntryName(f)
    ensures forall f :: f in r ==> IsEntryName(f) && IsImageFile(f)
    ensures forall f :: multiset(r)[f] == if IsEntryName(f) && IsImageFile(f) then multiset(files)[f] else 0
    ensures IsSubsequence(r, files)
    decreases |files|
  {
    if files == [] then []
    else
      var init, last := files[..|files| - 1], files[|files| - 1];
      assert files == init + [last];
      var prev := FilterImages(init);
      var kept := if IsImageFile(last) then [last] else [];
      FilterStep(prev, init, last, kept);
      if kept == [] then
        SubsequenceSnoc(prev, init, last);
        assert prev + kept == prev;
        prev + kept
      else
        FilterKeepsLast(prev, init, last);
        prev + kept
  }

  lemma FilterKeepsLast(prev: seq<string>, init: seq<string>, last: string)
    requires IsSubsequence(prev, init)
    ensures IsSubsequence(prev + [last], init + [last])
  {
    assert (prev + [last])[..|prev|] == prev;
    assert (init + [last])[..|init|] == init;
  }

  /** Filtering one more file keeps its occurrence exactly when it is an image. */
  lemma FilterStep(prev: seq<string>, init: seq<string>, last: string, kept: seq<string>)
    requires IsEntryName(last)
    requires forall f :: multiset(prev)[f] == if IsEntryName(f) && IsImageFile(f) then multiset(init)[f] else 0
    requires kept == if IsImageFile(last) then [last] else []
    ensures forall f :: multiset(prev + kept)[f] == if IsEntryName(f) && IsImageFile(f) then multiset(init + [last])[f] else 0
  {
    assert multiset(init + [last]) == multiset(init) + multiset{last};
    assert multiset(prev + kept) == multiset(prev) + multiset(kept);
  }

  lemma {:induction false} FilterKeepsAllImages(files: seq<string>)
    requires forall f :: f in files ==> IsEntryName(f) && IsImageFile(f)
    ensures FilterImages(files) == files
    decreases |files|
  {
    if files != [] {
      FilterKeepsAllImages(files[..|files| - 1]);
      assert files[..|files| - 1] + [files[|files| - 1]] == files;
    }
  }

  predicate OccursAt(s: string, pattern: string, i: nat)
  {
    i + |pattern| <= |s| && s[i..i + |pattern|] == pattern
  }

  lemma OccursAtTail(s: string, pattern: string, i: nat)
    requires s != []
    ensures OccursAt(s, pattern, i + 1) <==> OccursAt(s[1..], pattern, i)
  {
    if i + 1 + |pattern| <= |s| {
      assert s[1..][i..i + |pattern|] == s[i + 1..i + 1 + |pattern|];
    }
  }

  /** First occurrence of `pattern` in `s`. */
  function IndexOf(s: string, pattern: string): (r: Option<nat>)
    ensures r.Some? ==> OccursAt(s, pattern, r.value)
    ensures forall i: nat :: OccursAt(s, pattern, i) ==> r.Some? && r.value <= i
    decreases |s|
  {
    if |pattern| > |s| then None
    else if s[..|pattern|] == pattern then Some(0)
    else
      var r := IndexOf(s[1..], pattern);
      forall i: nat | OccursAt(s, pattern, i)
        ensures r.Some? && r.value + 1 <= i
      {
        assert i != 0;
        OccursAtTail(s, pattern, i - 1);
      }
      match r
      case None => None
      case Some(i) =>
        OccursAtTail(s, pattern, i);
        Some(i + 1)
  }

  /** `String.prototype.replace` with a string pattern: only the first occurrence. */
  function ReplaceFirst(s: string, pattern: string, replacement: string): (r: string)
    ensures IndexOf(s, pattern).None? ==> r == s
    ensures IndexOf(s, pattern).Some? ==>
      var i := IndexOf(s, pattern).value;
      r == s[..i] + replacement + s[i + |pattern|..]
  {
    match IndexOf(s, pattern)
    case None => s
    case Some(i) => s[..i] + replacement + s[i + |pattern|..]
  }

  /** A directory under `public/` is served from the site root. */
  lemma PublicPrefixDropped(rest: string)
    ensures ReplaceFirst("public/" + rest, "public/", "") == rest
  {
    var s := "public/" + rest;
    assert s[..7] == "public/";
  }

  datatype ManifestEntry = ManifestEntry(id: nat, filename: string, src: string, alt: string)

  function Filenames(entries: seq<ManifestEntry>): (names: seq<string>)
    ensures |names| == |entries| && forall i :: 0 <= i < |entries| ==> names[i] == entries[i].filename
  {
    seq(|entries|, i requires 0 <= i < |entries| => entries[i].filename)
  }

  /** `getImagesFromDirectory`. */
  function GetImagesFromDirectory(dirPath: string, listing: Option<seq<string>>): (entries: seq<ManifestEntry>)
    requires listing.Some? ==> forall f :: f in listing.value ==> IsEntryName(f)
    ensures listing.None? ==> entries == []
    ensures listing.Some? ==>
      forall f :: multiset(Filenames(entries))[f] == if IsEntryName(f) && IsImageFile(f) then multiset(listing.value)[f] else 0
    ensures SortedBy(SortKey, Filenames(entries))
    ensures forall i :: 0 <= i < |entries| ==>
      entries[i].id == i &&
      entries[i].src == "/" + ReplaceFirst(dirPath, "public/", "") + "/" + entries[i].filename &&
      entries[i].alt == ImageApi.AltText(i)
  {
    match listing
    case None => []
    case Some(files) =>
      var filtered := FilterImages(files);
      var sorted := SortBy(SortKey, filtered);
      assert multiset(sorted) == multiset(filtered);
      ManifestEntries(dirPath, sorted)
  }

  /** The `.map` step: entry `i` is numbered `i` and named after the `i`-th file. */
  function ManifestEntries(dirPath: string, names: seq<string>): (entries: seq<ManifestEntry>)
    ensures Filenames(entries) == names
    ensures forall i :: 0 <= i < |entries| ==>
      entries[i].id == i &&
      entries[i].src == "/" + ReplaceFirst(dirPath, "public/", "") + "/" + entries[i].filename &&
      entries[i].alt == ImageApi.AltText(i)
  {
    var entries := seq(|names|, i requires 0 <= i < |names| =>
      ManifestEntry(i, names[i], "/" + ReplaceFirst(dirPath, "public/", "") + "/" + names[i], ImageApi.AltText(i)));
    assert Filenames(entries) == names;
    entries
  }

  /** Entries with the same key appear in listing order. */
  lemma GetImagesIsStable(dirPath: string, files: seq<string>, k: nat)
    requires forall f :: f in files ==> IsEntryName(f)
    ensures WithKey(SortKey, Filenames(GetImagesFromDirectory(dirPath, Some(files))), k) == WithKey(SortKey, FilterImages(files), k)
  {
    var sorted := SortBy(SortKey, FilterImages(files));
    assert Filenames(GetImagesFromDirectory(dirPath, Some(files))) == sorted;
    SortIsStable(SortKey, FilterImages(files), k);
  }

  datatype TotalCount = TotalCount(big: nat, thumbnail: nat)

  datatype Manifest = Manifest(bigImages: seq<ManifestEntry>, thumbnails: seq<ManifestEntry>, totalCount: TotalCount)

  /** `generateImageManifest` without its file writes and its timestamp. */
  function GenerateImageManifest(bigListing: Option<seq<string>>, thumbnailListing: Option<seq<string>>): (m: Manifest)
    requires bigListing.Some? ==> forall f :: f in bigListing.value ==> IsEntryName(f)
    requires thumbnailListing.Some? ==> forall f :: f in thumbnailListing.value ==> IsEntryName(f)
    ensures m.totalCount.big == |m.bigImages| && m.totalCount.thumbnail == |m.thumbnails|
    ensures m.bigImages == GetImagesFromDirectory(BIG_IMAGES_DIR, bigListing)
    ensures m.thumbnails == GetImagesFromDirectory(THUMBNAIL_IMAGES_DIR, thumbnailListing)
  {
    var bigImages := GetImagesFromDirectory(BIG_IMAGES_DIR, bigListing);
    var thumbnails := GetImagesFromDirectory(THUMBNAIL_IMAGES_DIR, thumbnailListing);
    Manifest(bigImages, thumbnails, TotalCount(|bigImages|, |thumbnails|))
  }

  /** The file name the front end asks for: `car_001.jpeg`, `car_002.jpeg`, ... */
  function CatalogueFileName(index: nat): string
  {
    "car_" + ImageApi.FileNumber(index) + ".jpeg"
  }

  lemma CatalogueSortKey(index: nat)
    ensures SortKey(CatalogueFileName(index)) == index + 1
  {
    CatalogueNameRun(ImageApi.FileNumber(index));
  }

  /** In `car_<digits>.jpeg` the first digit run is exactly the digits. */
  lemma CatalogueNameRun(digits: string)
    requires |digits| >= 1 && AllDigits(digits)
    ensures FirstDigitRun("car_" + digits + ".jpeg") == Some(digits)
  {
    assert forall i :: 0 <= i < |"car_"| ==> !IsDigit("car_"[i]);
    FirstDigitRunOf("car_", digits, ".jpeg");
  }

  lemma CatalogueIsImage(index: nat)
    ensures IsEntryName(CatalogueFileName(index)) && IsImageFile(CatalogueFileName(index))
  {
    CatalogueNameIsImage(ImageApi.FileNumber(index));
  }

  /** `car_<digits>.jpeg` is a single path component ending in ".jpeg". */
  lemma CatalogueNameIsImage(digits: string)
    requires AllDigits(digits)
    ensures IsEntryName("car_" + digits + ".jpeg") && HasImageSuffix("car_" + digits + ".jpeg")
  {
    var name := "car_" + digits + ".jpeg";
    assert forall i :: 0 <= i < |"car_"| ==> "car_"[i] != '/';
    assert forall i :: 0 <= i < |digits| ==> digits[i] != '/';
    assert forall i :: 0 <= i < |".jpeg"| ==> ".jpeg"[i] != '/';
    assert name[|name| - 5..] == ".jpeg";
    assert ToLowerAscii(".jpeg") == ".jpeg";
    assert IMAGE_EXTENSIONS[1] == ".jpeg";
  }

  /** The names `car_001.jpeg` ... for the first `n` images, in catalogue order. */
  function CatalogueListing(n: nat): (names: seq<string>)
    ensures |names| == n && forall i :: 0 <= i < n ==> names[i] == CatalogueFileName(i)
    ensures forall f :: f in names ==> IsEntryName(f) && IsImageFile(f)
  {
    var names := seq(n, i requires 0 <= i => CatalogueFileName(i));
    forall f | f in names
      ensures IsEntryName(f) && IsImageFile(f)
    {
      var i :| 0 <= i < n && names[i] == f;
      CatalogueIsImage(i);
    }
    names
  }

  lemma CatalogueListingSorted(n: nat)
    ensures SortedBy(SortKey, CatalogueListing(n))
  {
    var names := CatalogueListing(n);
    forall i | 0 < i < n
      ensures SortKey(names[i - 1]) <= SortKey(names[i])
    {
      CatalogueSortKey(i - 1);
      CatalogueSortKey(i);
    }
  }

  lemma ServedDirectory(isThumb: bool)
    ensures ReplaceFirst(if isThumb then THUMBNAIL_IMAGES_DIR else BIG_IMAGES_DIR, "public/", "")
         == "assets/images/car/" + ImageApi.Folder(isThumb)
  {
    if isThumb {
      ThumbnailDirSplit();
      DirectoryUnderPublic(THUMBNAIL_IMAGES_DIR, "assets/images/car/" + ImageApi.Folder(true));
    } else {
      BigDirSplit();
      DirectoryUnderPublic(BIG_IMAGES_DIR, "assets/images/car/" + ImageApi.Folder(false));
    }
  }

  lemma ThumbnailDirSplit()
    ensures THUMBNAIL_IMAGES_DIR == "public/" + ("assets/images/car/" + "carThumbnail")
  {
  }

  lemma BigDirSplit()
    ensures BIG_IMAGES_DIR == "public/" + ("assets/images/car/" + "carBig")
  {
  }

  lemma DirectoryUnderPublic(dir: string, served: string)
    requires dir == "public/" + served
    ensures ReplaceFirst(dir, "public/", "") == served
  {
    PublicPrefixDropped(served);
  }

  lemma SrcRegrouped(served: string, digits: string)
    ensures "/" + served + "/" + ("car_" + digits + ".jpeg") == ("/" + served + "/" + "car_") + digits + ".jpeg"
  {
  }

  /** The manifest's `src` for a catalogue file is the path the front end computes. */
  lemma CatalogueSrc(index: nat, isThumb: bool)
    ensures
      var dir := if isThumb then THUMBNAIL_IMAGES_DIR else BIG_IMAGES_DIR;
      "/" + ReplaceFirst(dir, "public/", "") + "/" + CatalogueFileName(index) == ImageApi.CreateImagePath(index, isThumb)
  {
    var served := "assets/images/car/" + ImageApi.Folder(isThumb);
    ServedDirectory(isThumb);
    SrcRegrouped(served, ImageApi.FileNumber(index));
    PrefixRegrouped(isThumb);
  }

  lemma PrefixRegrouped(isThumb: bool)
    ensures ImageApi.PathPrefix(isThumb) == "/" + ("assets/images/car/" + ImageApi.Folder(isThumb)) + "/" + "car_"
  {
    var folder := ImageApi.Folder(isThumb);
    var p := ImageApi.PathPrefix(isThumb);
    assert p == "/assets/images/car/" + folder + "/car_";
    assert "/" + ("assets/images/car/" + folder) == "/assets/images/car/" + folder;
    assert "/" + "car_" == "/car_";
  }

  /** A listing of image files already in comparator order keeps its order in the manifest. */
  lemma OrderedImageListingKept(dir: string, names: seq<string>)
    requires forall f :: f in names ==> IsEntryName(f) && IsImageFile(f)
    requires SortedBy(SortKey, names)
    ensures Filenames(GetImagesFromDirectory(dir, Some(names))) == names
  {
    FilterKeepsAllImages(names);
    SortOfSorted(SortKey, names);
  }

  /**
   * A folder holding exactly the catalogue's file names, listed in order,
   * yields a manifest whose entries carry the ids, paths and alt texts the
   * front end builds for itself.
   */
  lemma CatalogueManifestMatchesFrontEnd(n: nat, isThumb: bool)
    ensures
      var dir := if isThumb then THUMBNAIL_IMAGES_DIR else BIG_IMAGES_DIR;
      var entries := GetImagesFromDirectory(dir, Some(CatalogueListing(n)));
      |entries| == n &&
      forall i :: 0 <= i < n ==>
        entries[i].id == i && entries[i].filename == CatalogueFileName(i) &&
        entries[i].src == ImageApi.CreateImagePath(i, isThumb) && entries[i].alt == ImageApi.AltText(i)
  {
    var names := CatalogueListing(n);
    CatalogueListingSorted(n);
    var dir := if isThumb then THUMBNAIL_IMAGES_DIR else BIG_IMAGES_DIR;
    var entries := GetImagesFromDirectory(dir, Some(names));
    OrderedImageListingKept(dir, names);
    forall i | 0 <= i < n
      ensures entries[i].src == ImageApi.CreateImagePath(i, isThumb)
    {
      CatalogueSrc(i, isThumb);
    }
  }
}
