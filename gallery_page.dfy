/** client/pages/Gallery.tsx: which images the public gallery shows. */
module GalleryPage {
  import opened Wrappers
  import opened Lists

  /** An image as the gallery endpoint returns it; `visible` may be absent. */
  datatype ApiImage = ApiImage(
    id: string, title: string, category: string, imageUrl: string, visible: Option<bool>)

  datatype GalleryItem = GalleryItem(id: string, title: string, category: string, image: string)

  /** `img.visible !== false`: only an explicit false hides an image. */
  predicate Shown(img: ApiImage) {
    img.visible != Some(false)
  }

  /** The mapping from an API image to a gallery item. */
  function ToItem(img: ApiImage): GalleryItem {
    GalleryItem(img.id, img.title, img.category, img.imageUrl)
  }

  /** The number of shown images is the number of positions holding one. */
  lemma ShownCount(data: seq<ApiImage>)
    ensures |Filter(data, Shown)| == |set j | 0 <= j < |data| && Shown(data[j])|
  {
    FilterLengthCounts(data, Shown);
    assert Positions(data, Shown) == set j | 0 <= j < |data| && Shown(data[j]);
  }

  /** The list built from the fetched data: the shown images, converted, in order. */
  function FetchedItems(data: seq<ApiImage>): (r: seq<GalleryItem>)
    ensures IsSubsequence(r, Map(data, ToItem))
    ensures forall k :: 0 <= k < |r| ==>
              exists j :: 0 <= j < |data| && Shown(data[j]) && r[k] == ToItem(data[j])
    ensures forall j :: 0 <= j < |data| && Shown(data[j]) ==> ToItem(data[j]) in r
    ensures (forall j :: 0 <= j < |data| ==> Shown(data[j])) ==> r == Map(data, ToItem)
    ensures |r| == |set j | 0 <= j < |data| && Shown(data[j])|
    ensures exists kept :: IsSubsequence(kept, data) && (forall k :: 0 <= k < |kept| ==> Shown(kept[k])) &&
              |kept| == |set j | 0 <= j < |data| && Shown(data[j])| && r == Map(kept, ToItem)
  {
    FilterIsSubsequence(data, Shown);
    ShownCount(data);
    MapSubsequence(Filter(data, Shown), data, ToItem);
    FilterKeepsAll(data, Shown);
    MapOfFilter(data, Shown, ToItem);
    var kept := Filter(data, Shown);
    assert IsSubsequence(kept, data) && (forall k :: 0 <= k < |kept| ==> Shown(kept[k]));
    Map(kept, ToItem)
  }

  const DefaultItems: seq<GalleryItem> := [
    GalleryItem("1", "Custom Sticker Collection", "Stickers",
      "https://images.pexels.com/photos/9999871/pexels-photo-9999871.jpeg"),
    GalleryItem("2", "Professional Pull-Up Banner", "Banners",
      "https://cdn.builder.io/api/v1/image/assets%2F4890b49a9ba247bcad934e561cfa834f%2Fa24a9fb2d3e64fb98ec3d20a395c90b5?format=webp&width=800&height=1200"),
    GalleryItem("3", "Event Signage Setup", "Events",
      "https://cdn.builder.io/o/assets%2F4890b49a9ba247bcad934e561cfa834f%2Ffa167a2fa9dc40f0a37150ff4755ae36?alt=media&token=da59e727-0c3c-4ebd-9ada-0d6169433e20&apiKey=4890b49a9ba247bcad934e561cfa834f"),
    GalleryItem("4", "Branded Products Display", "Merchandise",
      "https://cdn.builder.io/api/v1/image/assets%2F4890b49a9ba247bcad934e561cfa834f%2F701e94da1f9a4c82a89e8400739ebfb5?format=webp&width=800&height=1200"),
    GalleryItem("5", "Outdoor Flag Installation", "Flags",
      "https://cdn.builder.io/api/v1/image/assets%2F4890b49a9ba247bcad934e561cfa834f%2F4d501dff8822408cb0c4aa7212dc574f?format=webp&width=800&height=1200"),
    GalleryItem("6", "Vehicle Wrap Project", "Branding",
      "https://cdn.builder.io/api/v1/image/assets%2F4890b49a9ba247bcad934e561cfa834f%2Fe3f0495c8b264b60ac5ef04dd1d9f104?format=webp&width=800&height=1200")
  ]

  /** The filter buttons. */
  const Filters: seq<string> := ["All", "Stickers", "Banners", "Flags", "Events", "Branding", "Merchandise"]

  /** `displayItems`: the fetched items, or the defaults when nothing was fetched. */
  function DisplayItems(fetched: seq<GalleryItem>): (r: seq<GalleryItem>)
    ensures |fetched| > 0 ==> r == fetched
    ensures |fetched| == 0 ==> r == DefaultItems
    ensures |r| > 0
  {
    if |fetched| > 0 then fetched else DefaultItems
  }

  /** `filteredItems`: everything under "All", otherwise the items of that category in order. */
  function FilteredItems(display: seq<GalleryItem>, activeFilter: string): (r: seq<GalleryItem>)
    ensures activeFilter == "All" ==> r == display
    ensures IsSubsequence(r, display)
    ensures activeFilter != "All" ==> forall k :: 0 <= k < |r| ==> r[k].category == activeFilter
    ensures activeFilter != "All" ==>
              forall k :: 0 <= k < |display| && display[k].category == activeFilter ==> display[k] in r
    ensures activeFilter != "All" ==> |r| == |set k | 0 <= k < |display| && display[k].category == activeFilter|
  {
    if activeFilter == "All" then
      SubsequenceReflexive(display);
      display
    else
      var keep := (item: GalleryItem) => item.category == activeFilter;
      FilterIsSubsequence(display, keep);
      FilterLengthCounts(display, keep);
      assert Positions(display, keep) == set k | 0 <= k < |display| && display[k].category == activeFilter;
      Filter(display, keep)
  }

  /** With nothing fetched, every filter button shows at least one default item. */
  lemma EveryFilterShowsSomeDefault(f: string)
    requires f in Filters
    ensures |FilteredItems(DisplayItems([]), f)| > 0
  {
    var i :| 0 <= i < |Filters| && Filters[i] == f;
    var shown := DisplayItems([]);
    assert shown == DefaultItems;
    if f != "All" {
      var k := [0, 1, 4, 2, 5, 3][i - 1];
      assert DefaultItems[k].category == f;
      assert DefaultItems[k] in FilteredItems(shown, f);
    }
  }
}
