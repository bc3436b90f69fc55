/** The gallery manager of `AdminGalleryPage.tsx`: an add/edit form, the
    store calls behind it, and the page's own copy of the image list, which
    it edits alongside the store instead of reloading. */
module AdminGallery {
  import opened Options
  import opened Seqs
  import opened Records
  import DataService

  datatype GalleryForm = GalleryForm(url: string, title: string, description: string, featured: bool)

  const BlankForm := GalleryForm("", "", "", false)

  /** The listed images, whether the form is open, the image being edited
      and the form fields. */
  datatype GalleryPage = GalleryPage(
    images: seq<GalleryImage>, showForm: bool, editing: Option<GalleryImage>, form: GalleryForm)

  /** `loadImages` on mount. */
  function Load(st: DataService.Store): (r: (DataService.Store, GalleryPage))
    ensures r.0 == DataService.Init(st)
    ensures r.1 == GalleryPage(DataService.GetGalleryImages(st, false).value, false, None, BlankForm)
  {
    var got := DataService.GetGalleryImages(st, false);
    (got.store, GalleryPage(got.value, false, None, BlankForm))
  }

  /** `resetForm`: blank fields, not featured, nothing being edited, form hidden. */
  function ResetForm(page: GalleryPage): (r: GalleryPage)
    ensures r.images == page.images
    ensures r.form.url == "" && r.form.title == "" && r.form.description == "" && !r.form.featured
    ensures r.editing.None? && !r.showForm
  {
    page.(form := BlankForm, editing := None, showForm := false)
  }

  /** The form's required fields are filled in. */
  predicate Filled(form: GalleryForm) {
    form.url != "" && form.title != ""
  }

  /** `handleAddImage`, with `newId` the id the store stamps: a form missing
      its url or title is refused and nothing changes; otherwise the store
      appends the image, the list gets exactly that image at its end and the
      form is reset. */
  function AddImage(st: DataService.Store, page: GalleryPage, newId: string): (r: (DataService.Store, GalleryPage))
    ensures !Filled(page.form) ==> r == (st, page)
    ensures Filled(page.form) ==>
              var added := GalleryImage(newId, page.form.url, page.form.title, page.form.description, page.form.featured);
              && StoredImages(r.0) == DataService.StoredGallery(DataService.Init(st)) + [added]
              && r.0 == DataService.Init(st).(gallery := r.0.gallery)
              && r.1 == ResetForm(page).(images := page.images + [added])
  {
    if !Filled(page.form) then (st, page)
    else
      var input := DataService.GalleryInput(page.form.url, page.form.title, page.form.description, page.form.featured);
      var added := DataService.AddGalleryImage(st, input, newId);
      (added.store, ResetForm(page).(images := page.images + [added.value]))
  }

  /** A page showing the stored gallery still shows it after an add, whether
      the form was accepted or refused. */
  lemma AddKeepsPageInSync(st: DataService.Store, page: GalleryPage, newId: string)
    requires DataService.Initialized(st)
    requires page.images == DataService.StoredGallery(st)
    ensures var r := AddImage(st, page, newId);
      r.1.images == DataService.StoredGallery(r.0)
  {
  }

  function StoredImages(st: DataService.Store): seq<GalleryImage> { DataService.StoredGallery(st) }

  /** The four form fields as a `Partial<GalleryImage>`. */
  function FormPatch(form: GalleryForm): GalleryPatch {
    GalleryPatch(None, Some(form.url), Some(form.title), Some(form.description), Some(form.featured))
  }

  function ImageIdIs(id: string): GalleryImage -> bool { (g: GalleryImage) => g.id == id }

  /** `prev.map(img => img.id === id ? updated : img)` */
  function ReplaceById(images: seq<GalleryImage>, id: string, updated: GalleryImage): (r: seq<GalleryImage>)
    ensures |r| == |images|
    ensures forall i :: 0 <= i < |images| && images[i].id == id ==> r[i] == updated
    ensures forall i :: 0 <= i < |images| && images[i].id != id ==> r[i] == images[i]
  {
    MapWhere(images, ImageIdIs(id), _ => updated)
  }

  /** `handleUpdateImage`: refused, with nothing changed, when no image is
      being edited or the url or title is empty; otherwise the store merges
      the form into the image, the list mirrors the store's answer (and stays
      as it was when the store did not find the id), and the form is reset. */
  function UpdateImage(st: DataService.Store, page: GalleryPage): (r: (DataService.Store, GalleryPage))
    ensures page.editing.None? || !Filled(page.form) ==> r == (st, page)
    ensures page.editing.Some? && Filled(page.form) ==>
              var answer := DataService.UpdateGalleryImage(st, page.editing.value.id, FormPatch(page.form));
              && r.0 == answer.store
              && r.1.editing.None? && !r.1.showForm && r.1.form == BlankForm
              && (answer.value.None? ==> r.1.images == page.images)
              && (answer.value.Some? ==> r.1.images == ReplaceById(page.images, page.editing.value.id, answer.value.value))
  {
    if page.editing.None? || !Filled(page.form) then (st, page)
    else
      var id := page.editing.value.id;
      var answer := DataService.UpdateGalleryImage(st, id, FormPatch(page.form));
      var images := if answer.value.Some? then ReplaceById(page.images, id, answer.value.value) else page.images;
      (answer.store, ResetForm(page).(images := images))
  }

  /** An accepted update keeps the edited image's id and carries exactly the
      form's four fields. */
  lemma UpdatedImageCarriesForm(st: DataService.Store, page: GalleryPage)
    requires page.editing.Some? && Filled(page.form)
    requires DataService.UpdateGalleryImage(st, page.editing.value.id, FormPatch(page.form)).value.Some?
    ensures var u := DataService.UpdateGalleryImage(st, page.editing.value.id, FormPatch(page.form)).value.value;
      u == GalleryImage(page.editing.value.id, page.form.url, page.form.title, page.form.description, page.form.featured)
  {
  }

  /** `handleEditImage`: the form gets the image's four fields and opens. */
  function EditImage(page: GalleryPage, image: GalleryImage): (r: GalleryPage)
    ensures r.images == page.images && r.editing == Some(image) && r.showForm
    ensures r.form.url == image.url && r.form.title == image.title
    ensures r.form.description == image.description && r.form.featured == image.featured
  {
    page.(editing := Some(image), form := GalleryForm(image.url, image.title, image.description, image.featured),
          showForm := true)
  }

  /** Opening an image for editing and saving without changes gives the image
      back as it was. */
  lemma EditThenSaveIsIdentity(st: DataService.Store, page: GalleryPage, image: GalleryImage)
    requires image.url != "" && image.title != ""
    requires DataService.UpdateGalleryImage(st, image.id, FormPatch(EditImage(page, image).form)).value.Some?
    ensures DataService.UpdateGalleryImage(st, image.id, FormPatch(EditImage(page, image).form)).value.value == image
  {
  }

  /** `handleDeleteImage(id)`: only a confirmed delete reaches the store, and
      the list loses the id only when the store reports success. */
  function DeleteImage(st: DataService.Store, page: GalleryPage, id: string, confirmed: bool)
    : (r: (DataService.Store, GalleryPage))
    ensures !confirmed ==> r == (st, page)
    ensures confirmed ==>
              var answer := DataService.DeleteGalleryImage(st, id);
              && r.0 == answer.store
              && (!answer.value ==> r.1 == page)
              && (answer.value ==> r.1 == page.(images := WithoutId(page.images, id)))
  {
    if !confirmed then (st, page)
    else
      var answer := DataService.DeleteGalleryImage(st, id);
      if answer.value then (answer.store, page.(images := WithoutId(page.images, id)))
      else (answer.store, page)
  }

  /** `prev.filter(img => img.id !== id)` */
  function WithoutId(images: seq<GalleryImage>, id: string): (r: seq<GalleryImage>)
    ensures forall x :: x in r <==> x in images && x.id != id
    ensures r == Filter(images, DataService.IdIsNot(ImageId, id))
  {
    DataService.RemoveAll(images, ImageId, id).0
  }

  /** A page showing the stored gallery still shows it after a delete,
      whatever the confirmation and whether or not the id was found. */
  lemma DeleteKeepsPageInSync(st: DataService.Store, page: GalleryPage, id: string, confirmed: bool)
    requires DataService.Initialized(st)
    requires page.images == DataService.StoredGallery(st)
    ensures var r := DeleteImage(st, page, id, confirmed);
      r.1.images == DataService.StoredGallery(r.0)
  {
  }

  /** `{ featured: f }` */
  function FeaturedPatch(f: bool): GalleryPatch {
    GalleryPatch(None, None, None, None, Some(f))
  }

  /** `handleToggleFeatured(id, currentStatus)`: the store flips the flag and
      the list mirrors the stored image; an unknown id changes no listed image. */
  function ToggleFeatured(st: DataService.Store, page: GalleryPage, id: string, currentStatus: bool)
    : (r: (DataService.Store, GalleryPage))
    ensures var answer := DataService.UpdateGalleryImage(st, id, FeaturedPatch(!currentStatus));
      && r.0 == answer.store
      && r.1 == page.(images := r.1.images)
      && (answer.value.None? ==> r.1.images == page.images)
      && (answer.value.Some? ==> r.1.images == ReplaceById(page.images, id, answer.value.value))
  {
    var answer := DataService.UpdateGalleryImage(st, id, FeaturedPatch(!currentStatus));
    if answer.value.Some? then (answer.store, page.(images := ReplaceById(page.images, id, answer.value.value)))
    else (answer.store, page)
  }

  /** When the page's list is the stored one, toggling changes only the
      featured flag of the image with that id (assumed unique), to the negated
      status. */
  lemma ToggleChangesOnlyThatFlag(st: DataService.Store, page: GalleryPage, k: int, currentStatus: bool)
    requires DataService.Initialized(st)
    requires page.images == DataService.StoredGallery(st)
    requires 0 <= k < |page.images|
    requires forall i :: 0 <= i < |page.images| && i != k ==> page.images[i].id != page.images[k].id
    ensures var r := ToggleFeatured(st, page, page.images[k].id, currentStatus);
      r.1.images == page.images[k := page.images[k].(featured := !currentStatus)]
  {
    var id := page.images[k].id;
    var answer := DataService.UpdateGalleryImage(st, id, FeaturedPatch(!currentStatus));
    assert DataService.HasId(page.images, ImageId, id) by {
      assert ImageId(page.images[k]) == id;
    }
    var r := ToggleFeatured(st, page, id, currentStatus);
    assert answer.value.Some?;
    assert answer.value.value == page.images[k].(featured := !currentStatus);
  }
}
