/** The catalog grid and its lightbox. The component keeps one piece of state,
    the selected index (`null`, a number, or NaN once a remainder by zero has
    been taken); the keyboard listener is re-registered only when that index
    changes, so it computes with the catalog length of the render in which the
    index last changed. Both are modelled; the catalog is a parameter (the
    component's props). */
module Gallery {
  import opened Base
  import opened Types
  import opened Collections
  import opened DriveService

  /** `selectedIdx`: `null`, a number, or NaN. */
  datatype Index = Closed | At(i: int) | NotANumber

  /** The component state: the index and the catalog length the key listener captured. */
  datatype GalleryState = GalleryState(selected: Index, keyLength: nat)

  /** As mounted: nothing selected. */
  function Mount(items: seq<MediaItem>): (g: GalleryState)
    ensures g.selected.Closed? && g.keyLength == |items|
  {
    GalleryState(Closed, |items|)
  }

  /** JavaScript's `a % n` on numbers: NaN for a zero divisor, otherwise the remainder with the
      sign of the dividend. */
  function JsRemainder(a: int, n: nat): (r: Index)
    ensures n == 0 <==> r.NotANumber?
    ensures n > 0 && a >= 0 ==> r == At(a % n) && 0 <= r.i < n
  {
    if n == 0 then NotANumber else if a >= 0 then At(a % n) else At(-((-a) % n))
  }

  /** `nextItem`'s new index for a catalog of length `n`. */
  function NextIndex(sel: Index, n: nat): Index {
    match sel
    case Closed => Closed
    case NotANumber => NotANumber
    case At(i) => JsRemainder(i + 1, n)
  }

  /** `prevItem`'s new index for a catalog of length `n`. */
  function PrevIndex(sel: Index, n: nat): Index {
    match sel
    case Closed => Closed
    case NotANumber => NotANumber
    case At(i) => JsRemainder(i - 1 + n, n)
  }

  /** The remainder of a number in `[0, 2n)` by `n`. */
  lemma RemainderBelowTwice(a: int, n: nat)
    requires 0 <= a < 2 * n
    ensures a < n ==> a % n == a
    ensures n <= a ==> a % n == a - n
  {
  }

  /** Within a non-empty catalog, stepping forward or back stays in range, and each step undoes
      the other. */
  lemma NextPrevInverse(i: int, n: nat)
    requires 0 <= i < n
    ensures NextIndex(At(i), n) == At(if i + 1 < n then i + 1 else 0)
    ensures PrevIndex(At(i), n) == At(if i == 0 then n - 1 else i - 1)
    ensures PrevIndex(NextIndex(At(i), n), n) == At(i)
    ensures NextIndex(PrevIndex(At(i), n), n) == At(i)
  {
    RemainderBelowTwice(i + 1, n);
    RemainderBelowTwice(i - 1 + n, n);
    var j := if i + 1 < n then i + 1 else 0;
    RemainderBelowTwice(j - 1 + n, n);
    var k := if i == 0 then n - 1 else i - 1;
    RemainderBelowTwice(k + 1, n);
  }

  /** `setSelectedIdx(sel)` followed by the re-render: when the index changes, the key listener is
      re-registered and captures the catalog length of that render. */
  function Settle(g: GalleryState, sel: Index, n: nat): (h: GalleryState)
    ensures h.selected == sel
    ensures sel == g.selected ==> h == g
    ensures sel != g.selected ==> h.keyLength == n
  {
    if sel == g.selected then g else GalleryState(sel, n)
  }

  /** The catalog shown and the state agree: the key listener knows the catalog's length and the
      index, if any, points at an item. */
  predicate Valid(g: GalleryState, items: seq<MediaItem>) {
    && g.keyLength == |items|
    && (g.selected.Closed? || (g.selected.At? && 0 <= g.selected.i < |items|))
  }

  /** A tile's click handler: open the lightbox on the tile's item. */
  function OpenAt(g: GalleryState, items: seq<MediaItem>, index: nat): (h: GalleryState)
    requires index < |items|
    ensures h.selected == At(index)
    ensures Valid(g, items) ==> Valid(h, items)
  {
    Settle(g, At(index), |items|)
  }

  /** The lightbox's forward button. */
  function ShowNext(g: GalleryState, items: seq<MediaItem>): (h: GalleryState)
    ensures g.selected.Closed? ==> h == g
    ensures Valid(g, items) ==> Valid(h, items)
    ensures Valid(g, items) && g.selected.At? ==> h.selected == At((g.selected.i + 1) % |items|)
  {
    Settle(g, NextIndex(g.selected, |items|), |items|)
  }

  /** The lightbox's back button. */
  function ShowPrev(g: GalleryState, items: seq<MediaItem>): (h: GalleryState)
    ensures g.selected.Closed? ==> h == g
    ensures Valid(g, items) ==> Valid(h, items)
    ensures Valid(g, items) && g.selected.At? ==> h.selected == At((g.selected.i - 1 + |items|) % |items|)
  {
    Settle(g, PrevIndex(g.selected, |items|), |items|)
  }

  /** The lightbox's Done button. */
  function CloseLightbox(g: GalleryState, items: seq<MediaItem>): (h: GalleryState)
    ensures h.selected.Closed?
    ensures Valid(g, items) ==> Valid(h, items)
  {
    Settle(g, Closed, |items|)
  }

  datatype Key = ArrowRight | ArrowLeft | Escape | OtherKey

  /** The window's `keydown` listener: ignored with nothing selected; the arrows step with the
      captured length; Escape closes. */
  function KeyDown(g: GalleryState, items: seq<MediaItem>, key: Key): (h: GalleryState)
    ensures g.selected.Closed? || key == OtherKey ==> h == g
    ensures key == Escape ==> h.selected.Closed?
    ensures Valid(g, items) ==> Valid(h, items)
    ensures Valid(g, items) && key == ArrowRight ==> h == ShowNext(g, items)
    ensures Valid(g, items) && key == ArrowLeft ==> h == ShowPrev(g, items)
  {
    if g.selected.Closed? then g
    else
      match key
      case ArrowRight => Settle(g, NextIndex(g.selected, g.keyLength), |items|)
      case ArrowLeft => Settle(g, PrevIndex(g.selected, g.keyLength), |items|)
      case Escape => Settle(g, Closed, |items|)
      case OtherKey => g
  }

  /** The lightbox's contents for one item. */
  datatype Detail = Detail(
    userName: string, timestamp: int, caption: string, mediaUrl: string, isVideo: bool,
    downloadUrl: string, downloadName: string, tags: seq<string>, itemId: string)

  /** The caption: the description when it is a non-empty string, else the file name. */
  function Caption(item: MediaItem): (c: string)
    ensures Truthy(item.aiDescription) ==> c == item.aiDescription.value
    ensures !Truthy(item.aiDescription) ==> c == item.fileName
    ensures c == "" ==> item.fileName == ""
  {
    if Truthy(item.aiDescription) then item.aiDescription.value else item.fileName
  }

  /** What the lightbox shows for `item`; its download link is `handleDownload`'s. */
  function DetailOf(item: MediaItem): (d: Detail)
    ensures d.mediaUrl == PreviewUrl(item.url) && d.downloadUrl == DownloadUrl(item.url)
    ensures d.downloadName == item.fileName && d.caption == Caption(item) && d.itemId == item.id
    ensures d.isVideo <==> item.kind == Video
  {
    Detail(item.userName, item.timestamp, Caption(item), PreviewUrl(item.url), item.kind == Video,
           DownloadUrl(item.url), item.fileName, item.tags.GetOr([]), item.id)
  }

  /** One grid tile: the preview URL and whether it shows a video badge. */
  datatype Tile = Tile(preview: string, isVideo: bool)

  /** The lightbox as rendered: absent, showing an item, or a render that throws because the
      index points at nothing. */
  datatype Lightbox = NoLightbox | Showing(detail: Detail) | Crashed

  datatype View = EmptyLibrary | Grid(tiles: seq<Tile>, lightbox: Lightbox)

  /** The render: the empty-state message for an empty catalog; otherwise one tile per item in
      catalog order, and the lightbox for the selected index. */
  function Render(items: seq<MediaItem>, g: GalleryState): (v: View)
    ensures v.EmptyLibrary? <==> |items| == 0
    ensures v.Grid? ==>
      && |v.tiles| == |items|
      && (forall k :: 0 <= k < |items| ==> v.tiles[k] == Tile(PreviewUrl(items[k].url), items[k].kind == Video))
    ensures v.Grid? ==> (v.lightbox.NoLightbox? <==> g.selected.Closed?)
    ensures v.Grid? && g.selected.At? && 0 <= g.selected.i < |items| ==>
      v.lightbox == Showing(DetailOf(items[g.selected.i]))
  {
    if |items| == 0 then EmptyLibrary
    else
      var tiles := seq(|items|, k requires 0 <= k < |items| => Tile(PreviewUrl(items[k].url), items[k].kind == Video));
      var lightbox := match g.selected
        case Closed => NoLightbox
        case NotANumber => Crashed
        case At(i) => if 0 <= i < |items| then Showing(DetailOf(items[i])) else Crashed;
      Grid(tiles, lightbox)
  }

  /** While the state is valid for the catalog shown, the render never throws. */
  lemma ValidNeverCrashes(g: GalleryState, items: seq<MediaItem>)
    requires Valid(g, items)
    ensures Render(items, g).Grid? ==> !Render(items, g).lightbox.Crashed?
    ensures Render(items, g).EmptyLibrary? ==> g.selected.Closed?
  {
  }

  /** The component as written when the catalog prop changes: the index and the listener stay as
      they were. */
  function ItemsChangedAsWritten(g: GalleryState, items: seq<MediaItem>): (h: GalleryState)
    ensures h.selected == g.selected && h.keyLength == g.keyLength
  {
    g
  }

  /** Two items, the lightbox open on the second, and the second deleted from the lightbox: the
      index outlives its item, so the next render of the remaining catalog throws. */
  lemma DeletingShownLastItemCrashes(a: MediaItem, b: MediaItem)
    requires a.id != b.id
    ensures var items := [a, b];
      var g := OpenAt(Mount(items), items, 1);
      var after := RemoveById(items, ItemId, b.id);
      after == [a] && Render(after, ItemsChangedAsWritten(g, after)) == Grid([Tile(PreviewUrl(a.url), a.kind == Video)], Crashed)
  {
    var items := [a, b];
    var after := RemoveById(items, ItemId, b.id);
    assert after == [a] by {
      assert RemoveById([b], ItemId, b.id) == [] by {
        assert [b][1..] == [];
        assert Filter([b], ItemId, b.id) == Filter([], ItemId, b.id);
      }
      RemoveByIdAppend([a], [b], ItemId, b.id);
      assert RemoveById([a], ItemId, b.id) == [a];
    }
  }

  /** The component as intended when the catalog prop changes: an index that no longer points at
      an item closes the lightbox, and the key listener learns the new length. */
  function ItemsChanged(g: GalleryState, items: seq<MediaItem>): (h: GalleryState)
    ensures Valid(h, items)
    ensures g.selected.At? && 0 <= g.selected.i < |items| ==> h.selected == g.selected
    ensures !(g.selected.At? && 0 <= g.selected.i < |items|) ==> h.selected.Closed?
  {
    if g.selected.At? && 0 <= g.selected.i < |items| then GalleryState(g.selected, |items|)
    else GalleryState(Closed, |items|)
  }

  /** With the intended handling, deleting the shown item never makes the lightbox throw. */
  lemma DeletingShownItemIsSafe(g: GalleryState, items: seq<MediaItem>, id: string)
    requires Valid(g, items)
    ensures var after := RemoveById(items, ItemId, id);
      var v := Render(after, ItemsChanged(g, after));
      v.Grid? ==> !v.lightbox.Crashed?
  {
    var after := RemoveById(items, ItemId, id);
    ValidNeverCrashes(ItemsChanged(g, after), after);
  }
}
