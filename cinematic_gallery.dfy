/**
 * The stacked ("cinematic") gallery of the public category pages: the folder each category's
 * pictures live in, the items it appends, and the lightbox whose previous and next buttons move
 * the index with the remainder operator.
 */
module CinematicGallery {
  import opened Wrappers
  import opened Portfolio
  import Text
  import Gallery

  // ----- Folders and paths -----

  /** The folder under images/ of a category key: 'bestOf' lives in 'best-of'. */
  function DirectoryName(category: string): (dir: string)
    ensures category == "bestOf" ==> dir == "best-of"
    ensures category != "bestOf" ==> dir == category
  {
    if category == "bestOf" then "best-of" else category
  }

  /** `images/${directoryName}/` for configured images, '' for the placeholders. */
  function BasePath(category: string, config: CategoryConfig): string {
    if |config.images| > 0 then "images/" + DirectoryName(category) + "/" else ""
  }

  /** Every configured category's pictures are looked up in one of the image folders. */
  lemma BasePathIsImageFolder(category: string)
    requires category in PortfolioConfig
    requires |PortfolioConfig[category].images| > 0
    ensures exists dir :: dir in ImageFolders && BasePath(category, PortfolioConfig[category]) == "images/" + dir + "/"
  {
    var dir := DirectoryName(category);
    assert category in {"track", "soccer", "football", "basketball", "bestOf"};
    assert dir in ImageFolders;
  }

  /** Every configuration key names an image folder once mapped, whatever images it lists. */
  lemma DirectoryNamesAreImageFolders()
    ensures forall category :: category in PortfolioConfig ==> DirectoryName(category) in ImageFolders
  {
    assert PortfolioConfig.Keys == {"track", "soccer", "football", "basketball", "bestOf"};
  }

  /** The grid gallery builds the folder from the key itself: once the 'bestOf' gallery lists a
      picture, its path names a folder 'bestOf' that is not one of the image folders, where this
      gallery looks in 'best-of'. */
  lemma GridGalleryMissesBestOfFolder(image: string)
    ensures var config := PortfolioConfig["bestOf"].(images := [image]);
            && Gallery.BasePath("bestOf", config) == "images/bestOf/"
            && "bestOf" !in ImageFolders
            && BasePath("bestOf", config) == "images/best-of/"
            && "best-of" in ImageFolders
  {
  }

  /** A stacked item: its picture, its alt text and its `data-index`. */
  datatype Item = Item(src: string, alt: string, dataIndex: int)

  /** createGalleryItem(imagePath, index, total) */
  function MakeItem(path: string, index: nat): Item {
    Item(path, "Gallery image " + Text.IntToString(index + 1), index)
  }

  /** The items initGallery appends for a configured category, in order. */
  function GalleryItems(category: string, config: CategoryConfig): seq<Item> {
    var images := Gallery.ShownImages(config);
    var base := BasePath(category, config);
    seq(|images|, i requires 0 <= i < |images| => MakeItem(Gallery.ImagePath(base, images[i]), i))
  }

  /** One item per shown image, in order, whose data-index is its position; configured images
      are looked up in the category's folder, placeholders are used as they are. */
  lemma GalleryItemsContract(category: string, config: CategoryConfig)
    ensures var items := GalleryItems(category, config);
            && |items| == |Gallery.ShownImages(config)| && |items| > 0
            && (forall i :: 0 <= i < |items| ==> items[i].dataIndex == i)
            && (|config.images| > 0 ==> forall i :: 0 <= i < |items| ==>
                  items[i].src == "images/" + DirectoryName(category) + "/" + config.images[i])
            && (|config.images| == 0 ==> forall i :: 0 <= i < |items| ==> items[i].src == PlaceholderImages[i])
  {
  }

  // ----- Lightbox navigation -----

  /** JavaScript's `%`: the remainder of truncated division. It differs from the dividend by a
      multiple of the divisor, is smaller than the divisor in size, and takes the sign of the
      dividend; those three facts single it out. */
  function JsRem(a: int, b: int): (r: int)
    requires b != 0
    ensures var m := if b > 0 then b else -b;
            -m < r < m && (a - r) % m == 0
    ensures a >= 0 ==> r >= 0
    ensures a < 0 ==> r <= 0
  {
    var m := if b > 0 then b else -b;
    if a >= 0 then
      RemDiffers(a, b, m);
      a % b
    else
      RemDiffers(-a, b, m);
      assert (a - -((-a) % b)) == -((-a) - (-a) % b);
      NegatedMultiple((-a) - (-a) % b, m);
      -((-a) % b)
  }

  /** For a non-negative dividend, Dafny's remainder by b or by |b| is the same, and it
      differs from the dividend by a multiple of |b|. */
  lemma RemDiffers(a: nat, b: int, m: int)
    requires b != 0 && m == (if b > 0 then b else -b)
    ensures a % b == a % m && 0 <= a % b < m && (a - a % b) % m == 0
  {
    assert a == m * (a / m) + a % m;
    assert a - a % m == m * (a / m);
    MultipleRem(a / m, m);
    if b < 0 {
      assert a == b * (a / b) + a % b;
      assert a == m * (-(a / b)) + a % b;
      UniqueRem(a, m, -(a / b), a % b);
    }
  }

  /** m * q has remainder 0 by m. */
  lemma MultipleRem(q: int, m: int)
    requires m > 0
    ensures (m * q) % m == 0
  {
    UniqueRem(m * q, m, q, 0);
  }

  /** A positive multiple of m is at least m. */
  lemma {:induction false} MulAtLeast(m: int, k: int)
    requires m > 0 && k >= 1
    ensures m * k >= m
    decreases k
  {
    if k > 1 {
      MulAtLeast(m, k - 1);
      assert m * k == m * (k - 1) + m;
    }
  }

  /** The only multiple of m strictly between -m and m is 0. */
  lemma SmallMultiple(m: int, k: int)
    requires m > 0 && -m < m * k < m
    ensures k == 0
  {
    if k >= 1 {
      MulAtLeast(m, k);
    } else if k <= -1 {
      MulAtLeast(m, -k);
    }
  }

  /** A remainder in [0, m) that leaves a multiple of m is the remainder. */
  lemma UniqueRem(a: int, m: int, q: int, r: int)
    requires m > 0 && 0 <= r < m && a == m * q + r
    ensures a % m == r
  {
    var q', r' := a / m, a % m;
    assert a == m * q' + r';
    assert r' - r == m * q - m * q';
    assert m * q - m * q' == m * (q - q');
    SmallMultiple(m, q - q');
  }

  /** The negation of a multiple of m is a multiple of m. */
  lemma NegatedMultiple(x: int, m: int)
    requires m > 0 && x % m == 0
    ensures (-x) % m == 0
  {
    assert x == m * (x / m);
    assert -x == m * (-(x / m));
    UniqueRem(-x, m, -(x / m), 0);
  }

  /** JavaScript's remainder is the only value with the three properties JsRem promises. */
  lemma JsRemUnique(a: int, b: int, r: int)
    requires b != 0
    requires var m := if b > 0 then b else -b;
             -m < r < m && (a - r) % m == 0 && (a >= 0 ==> r >= 0) && (a < 0 ==> r <= 0)
    ensures r == JsRem(a, b)
  {
    var m := if b > 0 then b else -b;
    SameRemainder(a, m, r, JsRem(a, b));
  }

  /** Two remainders of a by m with the sign of a are equal. */
  lemma SameRemainder(a: int, m: int, r1: int, r2: int)
    requires m > 0
    requires -m < r1 < m && (a - r1) % m == 0 && (a >= 0 ==> r1 >= 0) && (a < 0 ==> r1 <= 0)
    requires -m < r2 < m && (a - r2) % m == 0 && (a >= 0 ==> r2 >= 0) && (a < 0 ==> r2 <= 0)
    ensures r1 == r2
  {
    var q1, q2 := (a - r1) / m, (a - r2) / m;
    assert a - r1 == m * q1;
    assert a - r2 == m * q2;
    assert r2 - r1 == m * q1 - m * q2;
    assert m * q1 - m * q2 == m * (q1 - q2);
    SmallMultiple(m, q1 - q2);
  }



  /** showNextImage: `(i + 1) % length` */
  function Next(index: int, length: int): int
    requires length != 0
  {
    JsRem(index + 1, length)
  }

  /** showPrevImage: `(i - 1 + length) % length` */
  function Prev(index: int, length: int): int
    requires length != 0
  {
    JsRem(index - 1 + length, length)
  }

  /** A number in [0, length) is its own remainder. */
  lemma RemOfSmall(a: int, length: int)
    requires 0 <= a < length
    ensures a % length == a
  {
  }

  /** A number in [length, 2 * length) has remainder a - length. */
  lemma RemOfOneOver(a: int, length: int)
    requires 0 < length <= a < 2 * length
    ensures a % length == a - length
  {
    RemOfSmall(a - length, length);
    assert (a - length) % length == a % length;
  }

  /** The result of showNextImage from an index in range: one further, or 0 after the last. */
  lemma NextValue(index: int, length: int)
    requires 0 <= index < length
    ensures Next(index, length) == if index + 1 == length then 0 else index + 1
  {
    if index + 1 == length {
      RemOfOneOver(index + 1, length);
    } else {
      RemOfSmall(index + 1, length);
    }
  }

  /** The result of showPrevImage from an index in range: one back, or the last from 0. */
  lemma PrevValue(index: int, length: int)
    requires 0 <= index < length
    ensures Prev(index, length) == if index == 0 then length - 1 else index - 1
  {
    if index == 0 {
      RemOfSmall(length - 1, length);
    } else {
      RemOfOneOver(index - 1 + length, length);
    }
  }

  /** From an index in range both buttons stay in range, and each undoes the other. */
  lemma NextPrevInRange(index: int, length: int)
    requires 0 <= index < length
    ensures 0 <= Next(index, length) < length && 0 <= Prev(index, length) < length
    ensures Prev(Next(index, length), length) == index
    ensures Next(Prev(index, length), length) == index
  {
    NextValue(index, length);
    PrevValue(index, length);
    PrevValue(Next(index, length), length);
    NextValue(Prev(index, length), length);
  }

  /** The remainder arithmetic agrees with the grid gallery's explicit wrap-around. */
  lemma RemainderMatchesWrap(index: int, length: int)
    requires 0 <= index < length
    ensures Next(index, length) == Gallery.Stepped(index, 1, length)
    ensures Prev(index, length) == Gallery.Stepped(index, -1, length)
  {
    NextValue(index, length);
    PrevValue(index, length);
  }

  /** `${i + 1} / ${length}` */
  function CounterText(index: int, length: int): string {
    Text.IntToString(index + 1) + " / " + Text.IntToString(length)
  }

  /** Different pictures of one lightbox show different counters. */
  lemma CounterTextInjective(i: nat, j: nat, length: nat)
    requires CounterText(i, length) == CounterText(j, length)
    ensures i == j
  {
    var tail := " / " + Text.IntToString(length);
    var a := Text.NatToString(i + 1);
    var b := Text.NatToString(j + 1);
    assert CounterText(i, length) == a + tail;
    assert CounterText(j, length) == b + tail;
    assert |a| == |b|;
    assert a == (a + tail)[..|a|];
    assert b == (b + tail)[..|b|];
    Text.NatToStringInjective(i + 1, j + 1);
  }

  /** The page a category is shown on. */
  class CinematicPage {
    var title: string
    var items: seq<Item>
    var lightboxImages: seq<string>
    var currentLightboxIndex: int
    var active: bool
    /** The lightbox picture: None for `lightboxImages[i]` outside the list (undefined). */
    var shown: Option<string>
    var counter: string

    constructor ()
      ensures title == "" && items == [] && lightboxImages == [] && currentLightboxIndex == 0
      ensures !active && shown == Some("") && counter == ""
    {
      title := "";
      items := [];
      lightboxImages := [];
      currentLightboxIndex := 0;
      active := false;
      shown := Some("");
      counter := "";
    }

    /** initGallery: an unknown category changes nothing; otherwise the title is set and, when
        the grid exists, it is refilled and the lightbox takes its pictures. */
    method InitGallery(category: string, hasGrid: bool)
      modifies this`title, this`items, this`lightboxImages
      ensures category !in PortfolioConfig ==>
                title == old(title) && items == old(items) && lightboxImages == old(lightboxImages)
      ensures category in PortfolioConfig ==> title == PortfolioConfig[category].title
      ensures category in PortfolioConfig && !hasGrid ==>
                items == old(items) && lightboxImages == old(lightboxImages)
      ensures category in PortfolioConfig && hasGrid ==>
                && items == GalleryItems(category, PortfolioConfig[category])
                && |lightboxImages| == |items|
                && forall i :: 0 <= i < |items| ==> lightboxImages[i] == items[i].src
    {
      if category !in PortfolioConfig {
        return;
      }
      var config := PortfolioConfig[category];
      title := config.title;
      if !hasGrid {
        return;
      }
      var images := Gallery.ShownImages(config);
      var directoryName := DirectoryName(category);
      var base := if |config.images| > 0 then "images/" + directoryName + "/" else "";
      items := [];
      for index := 0 to |images|
        invariant items == GalleryItems(category, config)[..index]
        invariant title == config.title
      {
        items := items + [MakeItem(Gallery.ImagePath(base, images[index]), index)];
      }
      var list := items;
      lightboxImages := seq(|list|, i requires 0 <= i < |list| => list[i].src);
    }

    /** openLightbox: the index becomes the argument, its picture and counter are shown and the
        lightbox is active. */
    method OpenLightbox(index: int)
      modifies this`currentLightboxIndex, this`shown, this`counter, this`active
      ensures currentLightboxIndex == index && active
      ensures shown == (if 0 <= index < |lightboxImages| then Some(lightboxImages[index]) else None)
      ensures counter == CounterText(index, |lightboxImages|)
    {
      currentLightboxIndex := index;
      shown := if 0 <= index < |lightboxImages| then Some(lightboxImages[index]) else None;
      counter := CounterText(currentLightboxIndex, |lightboxImages|);
      active := true;
    }

    /** closeLightbox */
    method CloseLightbox()
      modifies this`active
      ensures !active
    {
      active := false;
    }

    /** showPrevImage. The buttons belong to a lightbox opened from an item, so the list is
        never empty. */
    method ShowPrevImage()
      requires |lightboxImages| > 0
      modifies this`currentLightboxIndex, this`shown, this`counter
      ensures currentLightboxIndex == Prev(old(currentLightboxIndex), |lightboxImages|)
      ensures shown == (if 0 <= currentLightboxIndex < |lightboxImages| then Some(lightboxImages[currentLightboxIndex]) else None)
      ensures counter == CounterText(currentLightboxIndex, |lightboxImages|)
    {
      currentLightboxIndex := JsRem(currentLightboxIndex - 1 + |lightboxImages|, |lightboxImages|);
      shown := if 0 <= currentLightboxIndex < |lightboxImages| then Some(lightboxImages[currentLightboxIndex]) else None;
      counter := CounterText(currentLightboxIndex, |lightboxImages|);
    }

    /** showNextImage. */
    method ShowNextImage()
      requires |lightboxImages| > 0
      modifies this`currentLightboxIndex, this`shown, this`counter
      ensures currentLightboxIndex == Next(old(currentLightboxIndex), |lightboxImages|)
      ensures shown == (if 0 <= currentLightboxIndex < |lightboxImages| then Some(lightboxImages[currentLightboxIndex]) else None)
      ensures counter == CounterText(currentLightboxIndex, |lightboxImages|)
    {
      currentLightboxIndex := JsRem(currentLightboxIndex + 1, |lightboxImages|);
      shown := if 0 <= currentLightboxIndex < |lightboxImages| then Some(lightboxImages[currentLightboxIndex]) else None;
      counter := CounterText(currentLightboxIndex, |lightboxImages|);
    }
  }
}
