/** The lightbox of `GallerySection.tsx`: which image is open, stepping to the
    previous or next image with wrap-around, and the keyboard shortcuts. */
module GallerySection {
  import opened Options
  import opened Seqs
  import opened Records

  datatype Direction = Prev | Next

  /** The images the section loaded, and the one shown enlarged (`None` when
      the lightbox is closed). */
  datatype Lightbox = Lightbox(images: seq<GalleryImage>, selected: Option<GalleryImage>)

  /** `openLightbox` */
  function Open(lb: Lightbox, image: GalleryImage): (r: Lightbox)
    ensures r.images == lb.images && r.selected == Some(image)
  {
    lb.(selected := Some(image))
  }

  /** `closeLightbox` */
  function Close(lb: Lightbox): (r: Lightbox)
    ensures r.images == lb.images && r.selected.None?
  {
    lb.(selected := None)
  }

  function SameId(id: string): GalleryImage -> bool { (g: GalleryImage) => g.id == id }

  /** The index `navigateImage` moves to from `current` (which is -1 when the
      open image is not in the list). */
  function Step(current: int, len: nat, dir: Direction): int {
    match dir
    case Prev => if current == 0 then len - 1 else current - 1
    case Next => if current == len - 1 then 0 else current + 1
  }

  /** `k` is where `findIndex` by id stops: the first image with that id. */
  predicate FirstWithId(images: seq<GalleryImage>, id: string, k: int) {
    0 <= k < |images| && images[k].id == id && forall j :: 0 <= j < k ==> images[j].id != id
  }

  /** `navigateImage`: the image at the stepped index, or `None` when that
      index holds nothing (`images[newIndex]` is `undefined`, which closes the
      lightbox). */
  function Navigate(images: seq<GalleryImage>, selected: Option<GalleryImage>, dir: Direction): (r: Option<GalleryImage>)
    ensures selected.None? ==> r.None?
    ensures forall k :: selected.Some? && FirstWithId(images, selected.value.id, k) ==>
              && (dir == Next ==> r == Some(images[if k == |images| - 1 then 0 else k + 1]))
              && (dir == Prev ==> r == Some(images[if k == 0 then |images| - 1 else k - 1]))
    ensures selected.Some? && (forall i :: 0 <= i < |images| ==> images[i].id != selected.value.id) ==>
              && (dir == Next ==> r == if |images| > 0 then Some(images[0]) else None)
              && (dir == Prev ==> r.None?)
    ensures r.Some? ==> r.value in images
  {
    if selected.None? then None
    else
      var n := Step(FindIndex(images, SameId(selected.value.id)), |images|, dir);
      if 0 <= n < |images| then Some(images[n]) else None
  }

  predicate UniqueIds(images: seq<GalleryImage>) {
    forall i, j :: 0 <= i < j < |images| ==> images[i].id != images[j].id
  }

  /** With distinct ids, every image is the first one carrying its id. */
  lemma FirstAtOwnIndex(images: seq<GalleryImage>, i: int)
    requires UniqueIds(images) && 0 <= i < |images|
    ensures FirstWithId(images, images[i].id, i)
  {
  }

  /** Stepping forward and then back returns to the image that was open, and
      so does stepping back and then forward. */
  lemma NextThenPrev(images: seq<GalleryImage>, i: int)
    requires UniqueIds(images) && 0 <= i < |images|
    ensures Navigate(images, Navigate(images, Some(images[i]), Next), Prev) == Some(images[i])
    ensures Navigate(images, Navigate(images, Some(images[i]), Prev), Next) == Some(images[i])
  {
    var n := if i == |images| - 1 then 0 else i + 1;
    var p := if i == 0 then |images| - 1 else i - 1;
    FirstAtOwnIndex(images, i);
    FirstAtOwnIndex(images, n);
    FirstAtOwnIndex(images, p);
    assert Navigate(images, Some(images[i]), Next) == Some(images[n]);
    assert Navigate(images, Some(images[n]), Prev) == Some(images[i]);
    assert Navigate(images, Some(images[i]), Prev) == Some(images[p]);
    assert Navigate(images, Some(images[p]), Next) == Some(images[i]);
  }

  /** `handleKeyDown`: ignored while closed; Escape closes, the left and right
      arrows step, and any other key changes nothing. */
  function KeyDown(lb: Lightbox, key: string): (r: Lightbox)
    ensures r.images == lb.images
    ensures lb.selected.None? ==> r == lb
    ensures lb.selected.Some? && key == "Escape" ==> r.selected.None?
    ensures lb.selected.Some? && key == "ArrowLeft" ==> r.selected == Navigate(lb.images, lb.selected, Prev)
    ensures lb.selected.Some? && key == "ArrowRight" ==> r.selected == Navigate(lb.images, lb.selected, Next)
    ensures key != "Escape" && key != "ArrowLeft" && key != "ArrowRight" ==> r == lb
  {
    if lb.selected.None? then lb
    else if key == "Escape" then Close(lb)
    else if key == "ArrowLeft" then lb.(selected := Navigate(lb.images, lb.selected, Prev))
    else if key == "ArrowRight" then lb.(selected := Navigate(lb.images, lb.selected, Next))
    else lb
  }
}
