/**
 * The galleries admin page: switching an image between public and draft, the local list
 * update that follows, the heading of the chosen category and the image count label.
 */
module Galleries {
  import opened Wrappers
  import opened Records
  import Text

  /** `currentVisibility === 'public' ? 'draft' : 'public'` */
  function ToggledVisibility(current: string): (next: string)
    ensures next == "draft" || next == "public"
    ensures (next == "draft") <==> (current == "public")
  {
    if current == "public" then "draft" else "public"
  }

  /** Toggling twice gives back a visibility of 'public' or 'draft'; any other value settles
      on 'public' after one toggle. */
  lemma ToggleTwice(current: string)
    ensures current == "public" || current == "draft" ==>
              ToggledVisibility(ToggledVisibility(current)) == current
    ensures current != "public" ==> ToggledVisibility(current) == "public"
  {
  }

  /** `images.map(img => img.id === imageId ? {...img, visibility} : img)` */
  function WithVisibility(images: seq<ImageRecord>, imageId: string, visibility: string): seq<ImageRecord> {
    seq(|images|, i requires 0 <= i < |images| =>
      if images[i].id == imageId then images[i].(visibility := visibility) else images[i])
  }

  /** The list keeps its length and order; the images with that id take the new visibility and
      keep every other field; every other image is unchanged. */
  lemma WithVisibilityContract(images: seq<ImageRecord>, imageId: string, visibility: string)
    ensures var r := WithVisibility(images, imageId, visibility);
            && |r| == |images|
            && (forall i :: 0 <= i < |r| && images[i].id != imageId ==> r[i] == images[i])
            && (forall i :: 0 <= i < |r| && images[i].id == imageId ==> r[i] == images[i].(visibility := visibility))
  {
  }

  /** toggleVisibility: the list and the alert after the update answers. A failed update
      leaves the list alone and alerts. */
  function ToggleVisibility(images: seq<ImageRecord>, imageId: string, currentVisibility: string, updateOk: bool)
    : (r: (seq<ImageRecord>, Option<string>))
    ensures |r.0| == |images|
    ensures !updateOk ==> r.0 == images && r.1 == Some("Failed to update visibility")
    ensures updateOk ==> r.1 == None
    ensures updateOk ==> forall i :: 0 <= i < |images| ==>
              r.0[i] == if images[i].id == imageId
                        then images[i].(visibility := ToggledVisibility(currentVisibility))
                        else images[i]
  {
    if updateOk then (WithVisibility(images, imageId, ToggledVisibility(currentVisibility)), None)
    else (images, Some("Failed to update visibility"))
  }

  /** After a successful toggle from the image's own visibility, toggling it again (also
      successfully) restores the list. */
  lemma ToggleVisibilityTwice(images: seq<ImageRecord>, imageId: string, current: string)
    requires current == "public" || current == "draft"
    requires forall i :: 0 <= i < |images| && images[i].id == imageId ==> images[i].visibility == current
    ensures var once := ToggleVisibility(images, imageId, current, true).0;
            ToggleVisibility(once, imageId, ToggledVisibility(current), true) == (images, None)
  {
    var once := WithVisibility(images, imageId, ToggledVisibility(current));
    ToggleTwice(current);
    assert WithVisibility(once, imageId, current) == images;
  }

  // ----- Heading and count -----

  /** A category tab: its stored value and the label shown for it. */
  datatype Tab = Tab(value: string, caption: string)

  const Tabs: seq<Tab> := [
    Tab("track", "Track & Field"),
    Tab("soccer", "Soccer"),
    Tab("football", "Football"),
    Tab("basketball", "Basketball"),
    Tab("best-of", "Best Of")
  ]

  /** The position `tabs.find(c => c.value === value)` stops at: the first tab with that
      value, or -1 when there is none. */
  function FindTab(tabs: seq<Tab>, value: string): (r: int)
    ensures -1 <= r < |tabs|
    ensures r == -1 <==> forall i :: 0 <= i < |tabs| ==> tabs[i].value != value
    ensures r >= 0 ==> tabs[r].value == value && forall j :: 0 <= j < r ==> tabs[j].value != value
    decreases |tabs|
  {
    if tabs == [] then -1
    else if tabs[0].value == value then 0
    else
      var r := FindTab(tabs[1..], value);
      assert forall i :: 1 <= i < |tabs| ==> tabs[1..][i - 1] == tabs[i];
      if r == -1 then -1 else r + 1
  }

  /** `tabs.find(c => c.value === selected)?.label || 'Images'` */
  function Heading(selected: string): string {
    var i := FindTab(Tabs, selected);
    if i >= 0 && Tabs[i].caption != "" then Tabs[i].caption else "Images"
  }

  /** The tab values differ in length, so no two tabs share a value. */
  lemma TabValueLengths()
    ensures forall i, j :: 0 <= i < j < |Tabs| ==> |Tabs[i].value| != |Tabs[j].value|
  {
  }

  /** Each tab's value finds that tab, whose caption becomes the heading. */
  lemma TabHeadings()
    ensures forall i :: 0 <= i < |Tabs| ==> Heading(Tabs[i].value) == Tabs[i].caption
  {
    TabValueLengths();
    forall i | 0 <= i < |Tabs|
      ensures Heading(Tabs[i].value) == Tabs[i].caption
    {
      var r := FindTab(Tabs, Tabs[i].value);
      assert r >= 0;
      assert |Tabs[r].value| == |Tabs[i].value|;
      assert Tabs[i].caption != "";
    }
  }

  /** The tab that shows a category. */
  function TabOf(c: Category): (i: nat)
    ensures i < |Tabs| && Tabs[i].value == c.Slug()
  {
    match c
    case Track => 0
    case Soccer => 1
    case Football => 2
    case Basketball => 3
    case BestOf => 4
  }

  /** The category a tab shows. */
  function CategoryOfTab(i: nat): Category
    requires i < |Tabs|
  {
    [Track, Soccer, Football, Basketball, BestOf][i]
  }

  /** Every tab is the tab of a category. */
  lemma TabsAreCategories()
    ensures forall i :: 0 <= i < |Tabs| ==> TabOf(CategoryOfTab(i)) == i
  {
  }

  /** Every category has its own label as heading; any other value falls back to 'Images'. */
  lemma HeadingContract(selected: string)
    ensures forall i :: 0 <= i < |Tabs| ==> Heading(Tabs[i].value) == Tabs[i].caption
    ensures (forall c: Category :: c.Slug() != selected) ==> Heading(selected) == "Images"
    ensures (exists c: Category :: c.Slug() == selected) ==> Heading(selected) != "Images"
  {
    TabHeadings();
    if c: Category :| c.Slug() == selected {
      assert Heading(Tabs[TabOf(c)].value) == Tabs[TabOf(c)].caption;
    } else {
      TabsAreCategories();
      forall i | 0 <= i < |Tabs|
        ensures Tabs[i].value != selected
      {
        assert Tabs[i].value == CategoryOfTab(i).Slug();
      }
    }
  }

  /** `${count} ${count === 1 ? 'image' : 'images'}` */
  function CountLabel(count: nat): string {
    Text.IntToString(count) + " " + (if count == 1 then "image" else "images")
  }

  /** The label ends in the plural exactly when the count is not 1. */
  lemma CountLabelPlural(count: nat)
    ensures var text := CountLabel(count);
            |text| >= 7 && (text[|text| - 1] == 's' <==> count != 1)
  {
    var digits := Text.IntToString(count);
    var text := CountLabel(count);
    if count == 1 {
      assert text == digits + " image";
      assert text[|text| - 1] == 'e';
    } else {
      assert text == digits + " images";
    }
  }
}
