/** The four record kinds the site stores, and the partial updates
    (`Partial<T>` objects) that are spread over them. */
module Records {
  import opened Options

  /** A point in time in milliseconds since the epoch: the value `getTime()`
      gives for a stored date string. */
  type Instant = int

  datatype Review = Review(
    id: string,
    name: string,
    rating: int,
    comment: string,
    date: Instant,
    published: bool)

  datatype PricingOption = PricingOption(
    id: string,
    name: string,
    description: string,
    pricePerNight: int,
    features: seq<string>)

  datatype GalleryImage = GalleryImage(
    id: string,
    url: string,
    title: string,
    description: string,
    featured: bool)

  datatype RequestType = Quote | Information

  datatype ContactRequest = ContactRequest(
    id: string,
    name: string,
    email: string,
    phone: Option<string>,
    message: string,
    requestType: RequestType,
    dateSubmitted: Instant,
    responded: bool)

  function ReviewId(r: Review): string { r.id }
  function PricingId(p: PricingOption): string { p.id }
  function ImageId(g: GalleryImage): string { g.id }
  function RequestId(c: ContactRequest): string { c.id }

  function IsPublished(r: Review): bool { r.published }
  function IsUnpublished(r: Review): bool { !r.published }
  function IsFeatured(g: GalleryImage): bool { g.featured }

  function ReviewDate(r: Review): int { r.date }
  function RequestDate(c: ContactRequest): int { c.dateSubmitted }

  /** A `Partial<Review>`: `None` is a key the object does not carry. */
  datatype ReviewPatch = ReviewPatch(
    id: Option<string>,
    name: Option<string>,
    rating: Option<int>,
    comment: Option<string>,
    date: Option<Instant>,
    published: Option<bool>)

  datatype PricingPatch = PricingPatch(
    id: Option<string>,
    name: Option<string>,
    description: Option<string>,
    pricePerNight: Option<int>,
    features: Option<seq<string>>)

  datatype GalleryPatch = GalleryPatch(
    id: Option<string>,
    url: Option<string>,
    title: Option<string>,
    description: Option<string>,
    featured: Option<bool>)

  /** `{}` */
  const NoPricingChange := PricingPatch(None, None, None, None, None)

  /** `{ ...r, ...u }`: every key `u` carries overwrites, the rest are kept. */
  function ApplyReviewPatch(r: Review, u: ReviewPatch): Review {
    Review(u.id.GetOr(r.id), u.name.GetOr(r.name), u.rating.GetOr(r.rating),
           u.comment.GetOr(r.comment), u.date.GetOr(r.date), u.published.GetOr(r.published))
  }

  function ApplyPricingPatch(p: PricingOption, u: PricingPatch): PricingOption {
    PricingOption(u.id.GetOr(p.id), u.name.GetOr(p.name), u.description.GetOr(p.description),
                  u.pricePerNight.GetOr(p.pricePerNight), u.features.GetOr(p.features))
  }

  function ApplyGalleryPatch(g: GalleryImage, u: GalleryPatch): GalleryImage {
    GalleryImage(u.id.GetOr(g.id), u.url.GetOr(g.url), u.title.GetOr(g.title),
                 u.description.GetOr(g.description), u.featured.GetOr(g.featured))
  }

  /** `{ ...p }` as a partial object: every key present. */
  function PricingAsPatch(p: PricingOption): (u: PricingPatch)
    ensures forall q :: ApplyPricingPatch(q, u) == p
  {
    PricingPatch(Some(p.id), Some(p.name), Some(p.description), Some(p.pricePerNight), Some(p.features))
  }

  /** Spreading a partial object over a record keeps exactly the keys it does
      not carry, and spreading the same object twice is the same as once. */
  lemma ReviewPatchLaws(r: Review, u: ReviewPatch)
    ensures var m := ApplyReviewPatch(r, u);
      && (u.id.None? ==> m.id == r.id) && (u.id.Some? ==> m.id == u.id.value)
      && (u.name.None? ==> m.name == r.name) && (u.name.Some? ==> m.name == u.name.value)
      && (u.rating.None? ==> m.rating == r.rating) && (u.rating.Some? ==> m.rating == u.rating.value)
      && (u.comment.None? ==> m.comment == r.comment) && (u.comment.Some? ==> m.comment == u.comment.value)
      && (u.date.None? ==> m.date == r.date) && (u.date.Some? ==> m.date == u.date.value)
      && (u.published.None? ==> m.published == r.published)
      && (u.published.Some? ==> m.published == u.published.value)
      && (u == ReviewPatch(None, None, None, None, None, None) ==> m == r)
      && ApplyReviewPatch(m, u) == m
  {
  }

  lemma PricingPatchLaws(p: PricingOption, u: PricingPatch)
    ensures var m := ApplyPricingPatch(p, u);
      && (u.id.None? ==> m.id == p.id) && (u.id.Some? ==> m.id == u.id.value)
      && (u.name.None? ==> m.name == p.name) && (u.name.Some? ==> m.name == u.name.value)
      && (u.description.None? ==> m.description == p.description)
      && (u.description.Some? ==> m.description == u.description.value)
      && (u.pricePerNight.None? ==> m.pricePerNight == p.pricePerNight)
      && (u.pricePerNight.Some? ==> m.pricePerNight == u.pricePerNight.value)
      && (u.features.None? ==> m.features == p.features)
      && (u.features.Some? ==> m.features == u.features.value)
      && (u == NoPricingChange ==> m == p)
      && ApplyPricingPatch(m, u) == m
  {
  }

  lemma GalleryPatchLaws(g: GalleryImage, u: GalleryPatch)
    ensures var m := ApplyGalleryPatch(g, u);
      && (u.id.None? ==> m.id == g.id) && (u.id.Some? ==> m.id == u.id.value)
      && (u.url.None? ==> m.url == g.url) && (u.url.Some? ==> m.url == u.url.value)
      && (u.title.None? ==> m.title == g.title) && (u.title.Some? ==> m.title == u.title.value)
      && (u.description.None? ==> m.description == g.description)
      && (u.description.Some? ==> m.description == u.description.value)
      && (u.featured.None? ==> m.featured == g.featured)
      && (u.featured.Some? ==> m.featured == u.featured.value)
      && (u == GalleryPatch(None, None, None, None, None) ==> m == g)
      && ApplyGalleryPatch(m, u) == m
  {
  }
}
