/**
 * The "Best Of" curation page: the featured list with its display order, adding an image at
 * the end, moving an entry one place up or down, switching an entry on or off, and the images
 * still available to add.
 *
 * The database is not modelled: what a query returns, and whether an insert, update or delete
 * succeeds, are parameters; what the page writes is returned.
 */
module BestOf {
  import opened Wrappers
  import opened Seqs
  import opened Records

  // ----- Adding -----

  /** `Math.max(...featured.map(f => f.order))` for a non-empty list. */
  function MaxOrder(featured: seq<FeaturedImage>): (m: int)
    requires featured != []
    ensures forall i :: 0 <= i < |featured| ==> featured[i].order <= m
    ensures exists i :: 0 <= i < |featured| && featured[i].order == m
    decreases |featured|
  {
    if |featured| == 1 then featured[0].order
    else
      var rest := MaxOrder(featured[1..]);
      assert forall i :: 1 <= i < |featured| ==> featured[1..][i - 1] == featured[i];
      if featured[0].order >= rest then featured[0].order else rest
  }

  /** The order a new entry gets: one past the largest, or 0 for an empty list. */
  function NextOrder(featured: seq<FeaturedImage>): (order: int)
    ensures featured == [] ==> order == 0
    ensures forall i :: 0 <= i < |featured| ==> featured[i].order < order
    ensures featured != [] ==> exists i :: 0 <= i < |featured| && featured[i].order == order - 1
  {
    (if featured != [] then MaxOrder(featured) else -1) + 1
  }

  /** The row addToFeatured inserts into `featured_images`. */
  datatype NewFeatured = NewFeatured(imageId: string, order: int, enabled: bool)

  // ----- Moving -----

  datatype Direction = Up | Down

  /** `direction === 'up' ? index - 1 : index + 1` */
  function Target(index: int, direction: Direction): int {
    if direction == Up then index - 1 else index + 1
  }

  /** The list with the entries at i and j exchanged. */
  function Swapped<T>(s: seq<T>, i: int, j: int): seq<T>
    requires 0 <= i < |s| && 0 <= j < |s|
  {
    s[i := s[j]][j := s[i]]
  }

  /** `images.map((img, i) => ({...img, order: i}))` */
  function Renumbered(s: seq<FeaturedImage>): seq<FeaturedImage> {
    seq(|s|, i requires 0 <= i < |s| => s[i].(order := i))
  }

  /** The list moveImage leaves: unchanged when the target is outside the list, otherwise the
      entry and its neighbour exchanged and every order set to its position. */
  function Moved(s: seq<FeaturedImage>, index: int, direction: Direction): seq<FeaturedImage>
    requires 0 <= index < |s|
  {
    var target := Target(index, direction);
    if target < 0 || target >= |s| then s else Renumbered(Swapped(s, index, target))
  }

  /** Exchanging two entries moves exactly those two: the result is a permutation, the two
      places hold each other's entry and every other place keeps its own. */
  lemma SwappedContract<T>(s: seq<T>, i: int, j: int)
    requires 0 <= i < |s| && 0 <= j < |s|
    ensures var r := Swapped(s, i, j);
            && |r| == |s| && multiset(r) == multiset(s)
            && r[i] == s[j] && r[j] == s[i]
            && forall k :: 0 <= k < |s| && k != i && k != j ==> r[k] == s[k]
  {
    if i != j {
      var t := s[i := s[j]];
      assert multiset(t) == multiset(s) - multiset{s[i]} + multiset{s[j]};
      assert multiset(t[j := s[i]]) == multiset(t) - multiset{s[j]} + multiset{s[i]};
    }
  }

  /** Renumbering sets every order to its position and keeps everything else of each entry. */
  lemma RenumberedContract(s: seq<FeaturedImage>)
    ensures var r := Renumbered(s);
            && |r| == |s|
            && (forall i :: 0 <= i < |r| ==> r[i].order == i)
            && (forall i :: 0 <= i < |r| ==> r[i].id == s[i].id && r[i].imageId == s[i].imageId && r[i].enabled == s[i].enabled)
  {
  }

  /** What an entry is apart from its order. */
  function Entry(f: FeaturedImage): (string, string, bool) {
    (f.id, f.imageId, f.enabled)
  }

  function Entries(s: seq<FeaturedImage>): seq<(string, string, bool)> {
    seq(|s|, i requires 0 <= i < |s| => Entry(s[i]))
  }

  /** A move to a place outside the list changes nothing. A move inside the list exchanges the
      entry with its neighbour, leaves every other entry where it was, renumbers every order
      to its position, and keeps the same entries apart from their orders. */
  lemma MovedContract(s: seq<FeaturedImage>, index: int, direction: Direction)
    requires 0 <= index < |s|
    ensures var target := Target(index, direction);
            var r := Moved(s, index, direction);
            && (target < 0 || target >= |s| ==> r == s)
            && (0 <= target < |s| ==>
                  && |r| == |s|
                  && r[index] == s[target].(order := index) && r[target] == s[index].(order := target)
                  && (forall k :: 0 <= k < |s| && k != index && k != target ==> r[k] == s[k].(order := k))
                  && (forall k :: 0 <= k < |r| ==> r[k].order == k)
                  && multiset(Entries(r)) == multiset(Entries(s)))
  {
    var target := Target(index, direction);
    if 0 <= target < |s| {
      var w := Swapped(s, index, target);
      SwappedContract(s, index, target);
      var es := Entries(s);
      SwappedContract(es, index, target);
      assert Entries(Renumbered(w)) == Swapped(es, index, target);
    }
  }

  /** Moving an entry down and then moving it back up restores the list, orders renumbered. */
  lemma MoveDownThenUp(s: seq<FeaturedImage>, index: int)
    requires 0 <= index < |s| - 1
    ensures Moved(Moved(s, index, Down), index + 1, Up) == Renumbered(s)
  {
    var once := Moved(s, index, Down);
    assert once == Renumbered(Swapped(s, index, index + 1));
    assert Moved(once, index + 1, Up) == Renumbered(Swapped(once, index + 1, index));
  }

  // ----- Enabling -----

  /** `featured.map(f => f.id === id ? {...f, enabled: value} : f)` */
  function WithEnabled(s: seq<FeaturedImage>, id: string, value: bool): seq<FeaturedImage> {
    seq(|s|, i requires 0 <= i < |s| => if s[i].id == id then s[i].(enabled := value) else s[i])
  }

  /** Only the entries with the given id change, and of those only `enabled`, which takes the
      given value; setting it back to what those entries held restores the list. */
  lemma WithEnabledContract(s: seq<FeaturedImage>, id: string, value: bool)
    ensures var r := WithEnabled(s, id, value);
            && |r| == |s|
            && (forall i :: 0 <= i < |s| && s[i].id != id ==> r[i] == s[i])
            && (forall i :: 0 <= i < |s| && s[i].id == id ==>
                  r[i].enabled == value && r[i] == s[i].(enabled := value))
            && ((forall i :: 0 <= i < |s| && s[i].id == id ==> s[i].enabled == !value) ==>
                  WithEnabled(r, id, !value) == s)
  {
  }

  // ----- Available images -----

  /** The image ids already featured: `new Set(featured.map(f => f.image_id))`. */
  function FeaturedIds(featured: seq<FeaturedImage>): set<string> {
    set i | 0 <= i < |featured| :: featured[i].imageId
  }

  /** The images that can still be added: those not already featured, in the order loaded. */
  function AvailableImages(all: seq<ImageRecord>, featured: seq<FeaturedImage>): seq<ImageRecord> {
    var ids := FeaturedIds(featured);
    Filter(all, (img: ImageRecord) => img.id !in ids)
  }

  /** No available image is featured, and every image that is not featured is available. */
  lemma AvailableImagesContract(all: seq<ImageRecord>, featured: seq<FeaturedImage>)
    ensures var r := AvailableImages(all, featured);
            && (forall i, j :: 0 <= i < |r| && 0 <= j < |featured| ==> r[i].id != featured[j].imageId)
            && (forall i :: 0 <= i < |all| && (forall j :: 0 <= j < |featured| ==> all[i].id != featured[j].imageId) ==>
                  all[i] in r)
  {
    var ids := FeaturedIds(featured);
    assert forall j :: 0 <= j < |featured| ==> featured[j].imageId in ids;
  }

  /** The page's state: the public images and the featured list it shows, and whether the
      add dialog is open. */
  class BestOfPage {
    var allImages: seq<ImageRecord>
    var featured: seq<FeaturedImage>
    var loading: bool
    var showAddModal: bool

    constructor ()
      ensures allImages == [] && featured == [] && loading && !showAddModal
    {
      allImages := [];
      featured := [];
      loading := true;
      showAddModal := false;
    }

    /** loadData, given what the two queries return (None when a query fails). A failed
        images query stops before the featured query. */
    method LoadData(images: Option<seq<ImageRecord>>, featuredRows: Option<seq<FeaturedImage>>)
      modifies this`allImages, this`featured, this`loading
      ensures allImages == (if images.Some? then images.value else old(allImages))
      ensures featured == (if images.Some? && featuredRows.Some? then featuredRows.value else old(featured))
      ensures !loading
    {
      loading := true;
      if images.Some? {
        allImages := images.value;
        if featuredRows.Some? {
          featured := featuredRows.value;
        }
      }
      loading := false;
    }

    /** addToFeatured: the row inserted (last in order, enabled) and, when the insert fails,
        the alert shown; on success the dialog closes (and the page reloads). */
    method AddToFeatured(imageId: string, insertOk: bool) returns (row: NewFeatured, alert: Option<string>)
      modifies this`showAddModal
      ensures row == NewFeatured(imageId, NextOrder(featured), true)
      ensures insertOk ==> alert == None && !showAddModal
      ensures !insertOk ==> alert == Some("Failed to add image to Best Of") && showAddModal == old(showAddModal)
    {
      var maxOrder := if |featured| > 0 then MaxOrder(featured) else -1;
      row := NewFeatured(imageId, maxOrder + 1, true);
      if !insertOk {
        return row, Some("Failed to add image to Best Of");
      }
      showAddModal := false;
      alert := None;
    }

    /** removeFromFeatured: the id whose row is deleted, if the user confirms; the alert shown
        when the delete fails. The local list is left to the reload. */
    method RemoveFromFeatured(featuredId: string, confirmed: bool, deleteOk: bool)
      returns (deleted: Option<string>, alert: Option<string>)
      ensures !confirmed ==> deleted == None && alert == None
      ensures confirmed ==> deleted == Some(featuredId)
      ensures confirmed && !deleteOk ==> alert == Some("Failed to remove image")
      ensures confirmed && deleteOk ==> alert == None
    {
      if !confirmed {
        return None, None;
      }
      deleted := Some(featuredId);
      alert := if deleteOk then None else Some("Failed to remove image");
    }

    /** toggleEnabled: after a successful update the entries with that id take the negation
        of the value the button showed; after a failed one nothing changes and an alert shows. */
    method ToggleEnabled(featuredId: string, currentEnabled: bool, updateOk: bool) returns (alert: Option<string>)
      modifies this`featured
      ensures updateOk ==> featured == WithEnabled(old(featured), featuredId, !currentEnabled) && alert == None
      ensures !updateOk ==> featured == old(featured) && alert == Some("Failed to update image")
    {
      if !updateOk {
        return Some("Failed to update image");
      }
      featured := WithEnabled(featured, featuredId, !currentEnabled);
      alert := None;
    }

    /** moveImage: exchange the entry with its neighbour through a temporary in a copy of the
        list, renumber, and return the order updates sent for every entry. The buttons only
        pass indexes of rendered entries. */
    method MoveImage(index: int, direction: Direction) returns (updates: seq<(string, int)>)
      requires 0 <= index < |featured|
      modifies this`featured
      ensures featured == Moved(old(featured), index, direction)
      ensures var target := Target(index, direction);
              (target < 0 || target >= |old(featured)| ==> updates == []) &&
              (0 <= target < |old(featured)| ==>
                 |updates| == |featured| && forall i :: 0 <= i < |updates| ==> updates[i] == (featured[i].id, i))
    {
      var newIndex := Target(index, direction);
      if newIndex < 0 || newIndex >= |featured| {
        return [];
      }
      var list := featured;
      var images := new FeaturedImage[|list|](i requires 0 <= i < |list| => list[i]);
      var temp := images[index];
      images[index] := images[newIndex];
      images[newIndex] := temp;
      assert images[..] == Swapped(list, index, newIndex);
      var renumbered := Renumbered(images[..]);
      featured := renumbered;
      updates := seq(|renumbered|, i requires 0 <= i < |renumbered| => (renumbered[i].id, i));
    }
  }
}
