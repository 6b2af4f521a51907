/**
 * The grid gallery of the public category pages: which images a category shows and under
 * which paths, the featured first item, the orientation class of every other item, and the
 * lightbox with its wrap-around navigation and counter.
 *
 * The DOM is not modelled: the page is a class whose fields are what the script writes
 * (the title, the items of the grid, the lightbox list, index, picture and counter).
 */
module Gallery {
  import opened Wrappers
  import opened Portfolio
  import Text

  // ----- Images and paths -----

  /** The pictures a category shows: its configured images, or the placeholders when it lists none. */
  function ShownImages(config: CategoryConfig): (images: seq<string>)
    ensures |images| > 0
  {
    if |config.images| > 0 then config.images else PlaceholderImages
  }

  /** `images/${category}/` for configured images, '' for the placeholders. The category key
      is used as the folder name unchanged. */
  function BasePath(category: string, config: CategoryConfig): string {
    if |config.images| > 0 then "images/" + category + "/" else ""
  }

  /** `basePath ? basePath + image : image` */
  function ImagePath(basePath: string, image: string): string {
    if basePath != "" then basePath + image else image
  }

  /** A grid item: its picture, its alt text, its position and whether it is the featured one. */
  datatype Item = Item(src: string, alt: string, index: int, featured: bool)

  /** createGalleryItem(imagePath, index, index === 0) */
  function MakeItem(path: string, index: nat): Item {
    Item(path, "Gallery image " + Text.IntToString(index + 1), index, index == 0)
  }

  /** The items initGallery appends for a configured category, in order. */
  function GalleryItems(category: string, config: CategoryConfig): seq<Item> {
    var images := ShownImages(config);
    var base := BasePath(category, config);
    seq(|images|, i requires 0 <= i < |images| => MakeItem(ImagePath(base, images[i]), i))
  }

  /** One item per shown image, in order, each at its own position; exactly the first is
      featured; configured images are prefixed with `images/<category>/`, placeholders are
      used as they are. */
  lemma GalleryItemsContract(category: string, config: CategoryConfig)
    ensures var items := GalleryItems(category, config);
            var images := ShownImages(config);
            && |items| == |images| && |items| > 0
            && (forall i :: 0 <= i < |items| ==> items[i].index == i && (items[i].featured <==> i == 0))
            && (|config.images| > 0 ==>
                  forall i :: 0 <= i < |items| ==> items[i].src == "images/" + category + "/" + config.images[i])
            && (|config.images| == 0 ==>
                  forall i :: 0 <= i < |items| ==> items[i].src == PlaceholderImages[i])
  {
  }

  // ----- Orientation -----

  datatype Orientation = TallPortrait | Portrait | Square | Landscape | WideLandscape {
    /** The value written to `data-orientation`. */
    function Name(): string {
      match this
      case TallPortrait => "tall-portrait"
      case Portrait => "portrait"
      case Square => "square"
      case Landscape => "landscape"
      case WideLandscape => "wide-landscape"
    }

    /** The classes from tallest to widest. */
    function Rank(): nat {
      match this
      case TallPortrait => 0
      case Portrait => 1
      case Square => 2
      case Landscape => 3
      case WideLandscape => 4
    }
  }

  /** The if-chain on the aspect ratio (width over height). */
  function Classify(ratio: real): Orientation {
    if ratio < 0.7 then TallPortrait
    else if ratio < 0.9 then Portrait
    else if ratio < 1.1 then Square
    else if ratio < 1.8 then Landscape
    else WideLandscape
  }

  /** Each class is one band of ratios: the bands are [.., 0.7), [0.7, 0.9), [0.9, 1.1),
      [1.1, 1.8) and [1.8, ..), so every ratio has exactly one class. */
  lemma ClassifyBands(ratio: real)
    ensures Classify(ratio) == TallPortrait <==> ratio < 0.7
    ensures Classify(ratio) == Portrait <==> 0.7 <= ratio < 0.9
    ensures Classify(ratio) == Square <==> 0.9 <= ratio < 1.1
    ensures Classify(ratio) == Landscape <==> 1.1 <= ratio < 1.8
    ensures Classify(ratio) == WideLandscape <==> 1.8 <= ratio
  {
  }

  /** A wider picture never gets a taller class. */
  lemma ClassifyMonotone(a: real, b: real)
    requires a <= b
    ensures Classify(a).Rank() <= Classify(b).Rank()
  {
  }

  /** What setAspectRatioAndOrientation leaves on an item. */
  datatype Layout =
    | FeaturedLayout               // aspect-ratio '16 / 9', orientation 'featured'
    | Sized(ratio: real, orientation: Orientation)
    | Unsized                      // a side of zero: nothing is set

  function ItemLayout(featured: bool, naturalWidth: nat, naturalHeight: nat): Layout {
    if featured then FeaturedLayout
    else if naturalWidth > 0 && naturalHeight > 0 then
      var ratio := naturalWidth as real / naturalHeight as real;
      Sized(ratio, Classify(ratio))
    else Unsized
  }

  /** The featured item is 16:9 whatever its size; any other item gets its own ratio and the
      class of that ratio when both sides are positive, and nothing otherwise. */
  lemma ItemLayoutContract(featured: bool, naturalWidth: nat, naturalHeight: nat)
    ensures var l := ItemLayout(featured, naturalWidth, naturalHeight);
            && (featured <==> l.FeaturedLayout?)
            && (l.Unsized? <==> !featured && (naturalWidth == 0 || naturalHeight == 0))
            && (l.Sized? ==> l.ratio * naturalHeight as real == naturalWidth as real && l.ratio > 0.0
                             && l.orientation == Classify(l.ratio))
  {
  }

  // ----- Lightbox navigation -----

  /** navigateLightbox's index: step, then wrap below 0 to the last index and past the end to 0. */
  function Stepped(index: int, direction: int, length: nat): int {
    var next := index + direction;
    if next < 0 then length - 1 else if next >= length then 0 else next
  }

  /** From an index in range, a step of one either way stays in range and is the step taken
      modulo the length. */
  lemma SteppedInRange(index: int, direction: int, length: nat)
    requires 0 <= index < length
    requires direction == 1 || direction == -1
    ensures 0 <= Stepped(index, direction, length) < length
    ensures Stepped(index, direction, length) == (index + direction) % length
  {
  }

  /** Going forward and then back returns to the same picture, and so does going back and
      then forward. */
  lemma SteppedRoundTrip(index: int, length: nat)
    requires 0 <= index < length
    ensures Stepped(Stepped(index, 1, length), -1, length) == index
    ensures Stepped(Stepped(index, -1, length), 1, length) == index
  {
  }

  /** The page a category is shown on. */
  class GalleryPage {
    var title: string
    var items: seq<Item>
    var lightboxImages: seq<string>
    var currentImageIndex: int
    var active: bool
    /** The lightbox picture: None for `lightboxImages[i]` outside the list (undefined). */
    var shown: Option<string>
    /** The two counter spans: the current position from 1, and the number of pictures. */
    var counter: (int, int)

    constructor ()
      ensures title == "" && items == [] && lightboxImages == [] && currentImageIndex == 0 && !active
      ensures shown == Some("") && counter == (1, 1)
    {
      title := "";
      items := [];
      lightboxImages := [];
      currentImageIndex := 0;
      active := false;
      shown := Some("");
      counter := (1, 1);
    }

    /** initGallery: an unknown category changes nothing; otherwise the title is set and, when
        the grid exists, it is refilled and the lightbox takes its pictures. */
    method InitGallery(category: string, hasGrid: bool)
      modifies this`title, this`items, this`lightboxImages
      ensures category !in PortfolioConfig ==>
                title == old(title) && items == old(items) && lightboxImages == old(lightboxImages)
      ensures category in PortfolioConfig ==> title == PortfolioConfig[category].title
      ensures category in PortfolioConfig && !hasGrid ==>
                items == old(items) && lightboxImages == old(lightboxImages)
      ensures category in PortfolioConfig && hasGrid ==>
                && items == GalleryItems(category, PortfolioConfig[category])
                && |lightboxImages| == |items|
                && forall i :: 0 <= i < |items| ==> lightboxImages[i] == items[i].src
    {
      if category !in PortfolioConfig {
        return;
      }
      var config := PortfolioConfig[category];
      title := config.title;
      if !hasGrid {
        return;
      }
      var images := ShownImages(config);
      var base := BasePath(category, config);
      items := [];
      for index := 0 to |images|
        invariant items == GalleryItems(category, config)[..index]
        invariant title == config.title
      {
        items := items + [MakeItem(ImagePath(base, images[index]), index)];
      }
      InitLightbox();
    }

    /** initLightbox: the lightbox list is the pictures of the grid items. */
    method InitLightbox()
      modifies this`lightboxImages
      ensures |lightboxImages| == |items|
      ensures forall i :: 0 <= i < |items| ==> lightboxImages[i] == items[i].src
    {
      var list := items;
      lightboxImages := seq(|list|, i requires 0 <= i < |list| => list[i].src);
    }

    /** updateLightboxCounter */
    method UpdateCounter()
      modifies this`counter
      ensures counter == (currentImageIndex + 1, |lightboxImages|)
    {
      counter := (currentImageIndex + 1, |lightboxImages|);
    }

    /** openLightbox: the index becomes the argument, its picture and counter are shown and
        the lightbox is active. */
    method OpenLightbox(index: int)
      modifies this`currentImageIndex, this`shown, this`counter, this`active
      ensures currentImageIndex == index && active
      ensures shown == (if 0 <= index < |lightboxImages| then Some(lightboxImages[index]) else None)
      ensures counter == (index + 1, |lightboxImages|)
    {
      currentImageIndex := index;
      shown := if 0 <= index < |lightboxImages| then Some(lightboxImages[index]) else None;
      UpdateCounter();
      active := true;
    }

    /** closeLightbox */
    method CloseLightbox()
      modifies this`active
      ensures !active
    {
      active := false;
    }

    /** navigateLightbox: step by `direction` with the explicit wrap-around. */
    method NavigateLightbox(direction: int)
      modifies this`currentImageIndex, this`shown, this`counter
      ensures currentImageIndex == Stepped(old(currentImageIndex), direction, |lightboxImages|)
      ensures shown == (if 0 <= currentImageIndex < |lightboxImages| then Some(lightboxImages[currentImageIndex]) else None)
      ensures counter == (currentImageIndex + 1, |lightboxImages|)
    {
      currentImageIndex := currentImageIndex + direction;
      if currentImageIndex < 0 {
        currentImageIndex := |lightboxImages| - 1;
      } else if currentImageIndex >= |lightboxImages| {
        currentImageIndex := 0;
      }
      shown := if 0 <= currentImageIndex < |lightboxImages| then Some(lightboxImages[currentImageIndex]) else None;
      UpdateCounter();
    }
  }
}
