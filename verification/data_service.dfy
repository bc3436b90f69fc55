/** The mock database of `src/utils/dataService.ts`: four collections kept in
    browser storage, seeded on first use, with list/add/update/delete
    operations. Every operation takes the storage before the call and hands
    back the storage after it together with its JavaScript return value. */
module DataService {
  import opened Options
  import opened Seqs
  import opened Records

  /** Browser storage as far as the store uses it: one entry per storage key
      (`campsite-reviews`, `campsite-pricing`, `campsite-gallery`,
      `campsite-contacts`); `None` is a key that is absent. */
  datatype Store = Store(
    reviews: Option<seq<Review>>,
    pricing: Option<seq<PricingOption>>,
    gallery: Option<seq<GalleryImage>>,
    contacts: Option<seq<ContactRequest>>)

  /** The storage after a call, and what the call returned. */
  datatype Reply<T> = Reply(store: Store, value: T)

  const Empty := Store(None, None, None, None)

  const InitialReviews: seq<Review> := [
    Review("1", "Sarah Johnson", 5,
      "The most peaceful camping experience I've ever had. The facilities were clean and the staff was incredibly friendly!",
      1741996800000 /* 2025-03-15 */, true),
    Review("2", "Michael Taylor", 4,
      "Beautiful location with amazing views. The hiking trails are well-maintained and offer various difficulty levels.",
      1740700800000 /* 2025-02-28 */, true),
    Review("3", "Emma Wilson", 5,
      "We loved our cabin stay! The amenities were perfect and the atmosphere was so relaxing. Will definitely return.",
      1739145600000 /* 2025-02-10 */, true)
  ]

  const InitialPricing: seq<PricingOption> := [
    PricingOption("1", "Standard Campsite", "Perfect for tent camping with basic amenities.", 35,
      ["Fire pit", "Picnic table", "Access to communal bathrooms", "Parking spot"]),
    PricingOption("2", "Premium Campsite", "Spacious site with water and electric hookups.", 55,
      ["Water hookup", "Electric hookup", "Fire pit", "Picnic table", "Wi-Fi", "Premium location"]),
    PricingOption("3", "Rustic Cabin", "Cozy cabin with basic amenities for a comfortable stay.", 95,
      ["Queen bed", "Small kitchenette", "Private bathroom", "Heating/AC", "Covered porch"]),
    PricingOption("4", "Luxury Cabin", "Fully equipped cabin with modern amenities for an upscale camping experience.", 165,
      ["King bed", "Full kitchen", "Hot tub", "Fireplace", "Private deck", "Premium views"])
  ]

  const InitialGalleryImages: seq<GalleryImage> := [
    GalleryImage("1", "https://images.pexels.com/photos/2422265/pexels-photo-2422265.jpeg",
      "Lakeside View", "Beautiful sunrise view from our premium campsites", true),
    GalleryImage("2", "https://images.pexels.com/photos/2582818/pexels-photo-2582818.jpeg",
      "Cozy Cabin", "Interior of our rustic cabins with all amenities", false),
    GalleryImage("3", "https://images.pexels.com/photos/6271625/pexels-photo-6271625.jpeg",
      "Campfire Nights", "Enjoy evenings around the campfire with friends and family", true),
    GalleryImage("4", "https://images.pexels.com/photos/6271619/pexels-photo-6271619.jpeg",
      "Forest Trails", "Explore our extensive network of hiking trails", false),
    GalleryImage("5", "https://images.pexels.com/photos/27865/pexels-photo-27865.jpg",
      "Wildlife Encounters", "The campsite is home to diverse wildlife", false),
    GalleryImage("6", "https://images.pexels.com/photos/2258536/pexels-photo-2258536.jpeg",
      "Stargazing Deck", "Perfect spot for nighttime astronomy", true)
  ]

  /** Every key has been written. */
  predicate Initialized(st: Store) {
    st.reviews.Some? && st.pricing.Some? && st.gallery.Some? && st.contacts.Some?
  }

  /** `initializeData`: each absent key gets its seed collection (contacts get
      an empty one); a key that is present is never touched. */
  function Init(st: Store): (r: Store)
    ensures Initialized(r)
    ensures Initialized(st) ==> r == st
    ensures st.reviews.Some? ==> r.reviews == st.reviews
    ensures st.pricing.Some? ==> r.pricing == st.pricing
    ensures st.gallery.Some? ==> r.gallery == st.gallery
    ensures st.contacts.Some? ==> r.contacts == st.contacts
    ensures st.reviews.None? ==> r.reviews == Some(InitialReviews)
    ensures st.pricing.None? ==> r.pricing == Some(InitialPricing)
    ensures st.gallery.None? ==> r.gallery == Some(InitialGalleryImages)
    ensures st.contacts.None? ==> r.contacts == Some([])
  {
    Store(
      if st.reviews.None? then Some(InitialReviews) else st.reviews,
      if st.pricing.None? then Some(InitialPricing) else st.pricing,
      if st.gallery.None? then Some(InitialGalleryImages) else st.gallery,
      if st.contacts.None? then Some([]) else st.contacts)
  }

  /** Running the initialisation twice is running it once. */
  lemma InitIdempotent(st: Store)
    ensures Init(Init(st)) == Init(st)
  {
  }

  /** What `JSON.parse(localStorage.getItem(key) || '[]')` reads back. */
  function StoredReviews(st: Store): seq<Review> { st.reviews.GetOr([]) }
  function StoredPricing(st: Store): seq<PricingOption> { st.pricing.GetOr([]) }
  function StoredGallery(st: Store): seq<GalleryImage> { st.gallery.GetOr([]) }
  function StoredContacts(st: Store): seq<ContactRequest> { st.contacts.GetOr([]) }

  // ---------------------------------------------------------------------
  // Id-based edits shared by the collections
  // ---------------------------------------------------------------------

  function IdIs<T>(idOf: T -> string, id: string): T -> bool { x => idOf(x) == id }
  function IdIsNot<T>(idOf: T -> string, id: string): T -> bool { x => idOf(x) != id }

  /** Whether some record carries `id`. */
  ghost predicate HasId<T>(s: seq<T>, idOf: T -> string, id: string) {
    exists i :: 0 <= i < |s| && idOf(s[i]) == id
  }

  /** `findIndex` by id, then `list[index] = f(list[index])`: returns the
      edited list and the edited record, or the list unchanged and `null`. */
  function UpdateFirst<T>(s: seq<T>, idOf: T -> string, id: string, f: T -> T): (r: (seq<T>, Option<T>))
    ensures r.1.None? <==> !HasId(s, idOf, id)
    ensures r.1.None? ==> r.0 == s
    ensures r.1.Some? ==> exists k :: 0 <= k < |s| && idOf(s[k]) == id &&
                                      (forall j :: 0 <= j < k ==> idOf(s[j]) != id) &&
                                      r.1.value == f(s[k]) && r.0 == s[k := f(s[k])]
  {
    var k := FindIndex(s, IdIs(idOf, id));
    if k == -1 then (s, None) else (s[k := f(s[k])], Some(f(s[k])))
  }

  /** `filter(x => x.id !== id)` and the length comparison that decides the
      returned flag. */
  function RemoveAll<T(!new)>(s: seq<T>, idOf: T -> string, id: string): (r: (seq<T>, bool))
    ensures r.1 <==> HasId(s, idOf, id)
    ensures !r.1 ==> r.0 == s
    ensures r.1 ==> |r.0| < |s|
    ensures r.0 == Filter(s, IdIsNot(idOf, id))
    ensures forall x :: x in r.0 <==> x in s && idOf(x) != id
  {
    var kept := Filter(s, IdIsNot(idOf, id));
    FilterKeepsLength(s, IdIsNot(idOf, id));
    if |kept| == |s| then FilterAll(s, IdIsNot(idOf, id)); (kept, false)
    else (kept, true)
  }

  // ---------------------------------------------------------------------
  // Reviews
  // ---------------------------------------------------------------------

  /** The fields a visitor supplies for `addReview`. */
  datatype ReviewInput = ReviewInput(name: string, rating: int, comment: string)

  /** `getReviews(publishedOnly)`: seeds the storage, then lists every review,
      or only the published ones in stored order. */
  function GetReviews(st: Store, publishedOnly: bool): (r: Reply<seq<Review>>)
    ensures r.store == Init(st)
    ensures !publishedOnly ==> r.value == StoredReviews(Init(st))
    ensures publishedOnly ==> r.value == Filter(StoredReviews(Init(st)), IsPublished)
    ensures publishedOnly ==> forall x :: x in r.value <==> x in StoredReviews(Init(st)) && x.published
  {
    var all := StoredReviews(Init(st));
    Reply(Init(st), if publishedOnly then Filter(all, IsPublished) else all)
  }

  /** The published list holds each published review exactly as often as the
      store does, and no unpublished one. */
  lemma PublishedReviewsCounted(st: Store)
    ensures var all := StoredReviews(Init(st));
      forall x :: multiset(GetReviews(st, true).value)[x] == if x.published then multiset(all)[x] else 0
  {
    FilterCounts(StoredReviews(Init(st)), IsPublished);
  }

  /** `addReview`: stamps the id and date it is given, starts unpublished and
      appends; the other collections are only seeded. */
  function AddReview(st: Store, input: ReviewInput, id: string, today: Instant): (r: Reply<Review>)
    ensures r.value.id == id && r.value.date == today && !r.value.published
    ensures r.value.name == input.name && r.value.rating == input.rating && r.value.comment == input.comment
    ensures r.store.reviews == Some(StoredReviews(Init(st)) + [r.value])
    ensures r.store == Init(st).(reviews := r.store.reviews)
  {
    var s := Init(st);
    var review := Review(id, input.name, input.rating, input.comment, today, false);
    Reply(s.(reviews := Some(StoredReviews(s) + [review])), review)
  }

  /** A new review is unpublished, so the public list does not change. */
  lemma {:induction false} AddReviewKeepsPublicList(st: Store, input: ReviewInput, id: string, today: Instant)
    ensures var r := AddReview(st, input, id, today);
      GetReviews(r.store, true).value == GetReviews(st, true).value
  {
    var r := AddReview(st, input, id, today);
    FilterAppend(StoredReviews(Init(st)), [r.value], IsPublished);
    FilterSingleton(r.value, IsPublished);
  }

  /** `updateReview`: merges `updates` into the first review with that id; an
      unknown id returns `null` and writes nothing. */
  function UpdateReview(st: Store, id: string, updates: ReviewPatch): (r: Reply<Option<Review>>)
    ensures var s := StoredReviews(Init(st));
      && (r.value.None? <==> !HasId(s, ReviewId, id))
      && (r.value.None? ==> r.store == Init(st))
      && (r.value.Some? ==> exists k :: 0 <= k < |s| && s[k].id == id &&
                                       (forall j :: 0 <= j < k ==> s[j].id != id) &&
                                       r.value.value == ApplyReviewPatch(s[k], updates) &&
                                       r.store == Init(st).(reviews := Some(s[k := r.value.value])))
  {
    var s := Init(st);
    var (edited, found) := UpdateFirst(StoredReviews(s), ReviewId, id, x => ApplyReviewPatch(x, updates));
    if found.None? then Reply(s, None) else Reply(s.(reviews := Some(edited)), found)
  }

  /** `deleteReview`: removes every review with that id and reports whether
      there was one; when there was none nothing is written. */
  function DeleteReview(st: Store, id: string): (r: Reply<bool>)
    ensures var s := StoredReviews(Init(st));
      && (r.value <==> HasId(s, ReviewId, id))
      && (!r.value ==> r.store == Init(st))
      && (r.value ==> r.store == Init(st).(reviews := Some(Filter(s, IdIsNot(ReviewId, id)))))
      && forall x :: x in StoredReviews(r.store) <==> x in s && x.id != id
  {
    var s := Init(st);
    var (kept, removed) := RemoveAll(StoredReviews(s), ReviewId, id);
    if !removed then Reply(s, false) else Reply(s.(reviews := Some(kept)), true)
  }

  // ---------------------------------------------------------------------
  // Pricing
  // ---------------------------------------------------------------------

  /** `getPricing`: seeds the storage and lists every option. */
  function GetPricing(st: Store): (r: Reply<seq<PricingOption>>)
    ensures r.store == Init(st)
    ensures st.pricing.Some? ==> r.value == st.pricing.value
    ensures st.pricing.None? ==> r.value == InitialPricing
  {
    Reply(Init(st), StoredPricing(Init(st)))
  }

  /** `updatePricing`: as `updateReview`, for pricing options. */
  function UpdatePricing(st: Store, id: string, updates: PricingPatch): (r: Reply<Option<PricingOption>>)
    ensures var s := StoredPricing(Init(st));
      && (r.value.None? <==> !HasId(s, PricingId, id))
      && (r.value.None? ==> r.store == Init(st))
      && (r.value.Some? ==> exists k :: 0 <= k < |s| && s[k].id == id &&
                                       (forall j :: 0 <= j < k ==> s[j].id != id) &&
                                       r.value.value == ApplyPricingPatch(s[k], updates) &&
                                       r.store == Init(st).(pricing := Some(s[k := r.value.value])))
  {
    var s := Init(st);
    var (edited, found) := UpdateFirst(StoredPricing(s), PricingId, id, x => ApplyPricingPatch(x, updates));
    if found.None? then Reply(s, None) else Reply(s.(pricing := Some(edited)), found)
  }

  // ---------------------------------------------------------------------
  // Gallery
  // ---------------------------------------------------------------------

  /** The fields an administrator supplies for `addGalleryImage`. */
  datatype GalleryInput = GalleryInput(url: string, title: string, description: string, featured: bool)

  /** `getGalleryImages(featuredOnly)`: seeds the storage, then lists every
      image, or only the featured ones in stored order. */
  function GetGalleryImages(st: Store, featuredOnly: bool): (r: Reply<seq<GalleryImage>>)
    ensures r.store == Init(st)
    ensures !featuredOnly ==> r.value == StoredGallery(Init(st))
    ensures featuredOnly ==> r.value == Filter(StoredGallery(Init(st)), IsFeatured)
    ensures featuredOnly ==> forall x :: x in r.value <==> x in StoredGallery(Init(st)) && x.featured
  {
    var all := StoredGallery(Init(st));
    Reply(Init(st), if featuredOnly then Filter(all, IsFeatured) else all)
  }

  /** `addGalleryImage`: the given fields under the given id, appended. */
  function AddGalleryImage(st: Store, input: GalleryInput, id: string): (r: Reply<GalleryImage>)
    ensures r.value == GalleryImage(id, input.url, input.title, input.description, input.featured)
    ensures r.store.gallery == Some(StoredGallery(Init(st)) + [r.value])
    ensures r.store == Init(st).(gallery := r.store.gallery)
  {
    var s := Init(st);
    var image := GalleryImage(id, input.url, input.title, input.description, input.featured);
    Reply(s.(gallery := Some(StoredGallery(s) + [image])), image)
  }

  /** After an add, the full listing ends with the new image and the
      featured listing gains it exactly when it is featured. */
  lemma {:induction false} AddGalleryImageListed(st: Store, input: GalleryInput, id: string)
    ensures var r := AddGalleryImage(st, input, id);
      && GetGalleryImages(r.store, false).value == GetGalleryImages(st, false).value + [r.value]
      && GetGalleryImages(r.store, true).value
         == GetGalleryImages(st, true).value + (if input.featured then [r.value] else [])
  {
    var r := AddGalleryImage(st, input, id);
    FilterAppend(StoredGallery(Init(st)), [r.value], IsFeatured);
    FilterSingleton(r.value, IsFeatured);
  }

  /** `updateGalleryImage`: as `updateReview`, for gallery images. */
  function UpdateGalleryImage(st: Store, id: string, updates: GalleryPatch): (r: Reply<Option<GalleryImage>>)
    ensures var s := StoredGallery(Init(st));
      && (r.value.None? <==> !HasId(s, ImageId, id))
      && (r.value.None? ==> r.store == Init(st))
      && (r.value.Some? ==> exists k :: 0 <= k < |s| && s[k].id == id &&
                                       (forall j :: 0 <= j < k ==> s[j].id != id) &&
                                       r.value.value == ApplyGalleryPatch(s[k], updates) &&
                                       r.store == Init(st).(gallery := Some(s[k := r.value.value])))
  {
    var s := Init(st);
    var (edited, found) := UpdateFirst(StoredGallery(s), ImageId, id, x => ApplyGalleryPatch(x, updates));
    if found.None? then Reply(s, None) else Reply(s.(gallery := Some(edited)), found)
  }

  /** `deleteGalleryImage`: as `deleteReview`, for gallery images. */
  function DeleteGalleryImage(st: Store, id: string): (r: Reply<bool>)
    ensures var s := StoredGallery(Init(st));
      && (r.value <==> HasId(s, ImageId, id))
      && (!r.value ==> r.store == Init(st))
      && (r.value ==> r.store == Init(st).(gallery := Some(Filter(s, IdIsNot(ImageId, id)))))
      && forall x :: x in StoredGallery(r.store) <==> x in s && x.id != id
  {
    var s := Init(st);
    var (kept, removed) := RemoveAll(StoredGallery(s), ImageId, id);
    if !removed then Reply(s, false) else Reply(s.(gallery := Some(kept)), true)
  }

  // ---------------------------------------------------------------------
  // Contact requests (these three never seed the storage)
  // ---------------------------------------------------------------------

  /** The fields a visitor supplies for `addContactRequest`. */
  datatype ContactInput = ContactInput(
    name: string, email: string, phone: Option<string>, message: string, requestType: RequestType)

  /** `addContactRequest`: stamps id and submission time, starts not responded
      to, and appends; nothing else in storage is touched. */
  function AddContactRequest(st: Store, input: ContactInput, id: string, now: Instant): (r: Reply<ContactRequest>)
    ensures r.value.id == id && r.value.dateSubmitted == now && !r.value.responded
    ensures r.value.name == input.name && r.value.email == input.email && r.value.phone == input.phone
    ensures r.value.message == input.message && r.value.requestType == input.requestType
    ensures r.store == st.(contacts := Some(StoredContacts(st) + [r.value]))
  {
    var request := ContactRequest(id, input.name, input.email, input.phone, input.message,
                                  input.requestType, now, false);
    Reply(st.(contacts := Some(StoredContacts(st) + [request])), request)
  }

  /** `getContactRequests`: an absent key reads as the empty list. */
  function GetContactRequests(st: Store): (r: seq<ContactRequest>)
    ensures st.contacts.None? ==> r == []
    ensures st.contacts.Some? ==> r == st.contacts.value
  {
    StoredContacts(st)
  }

  /** `deleteContactRequest`: as `deleteReview`, without seeding. */
  function DeleteContactRequest(st: Store, id: string): (r: Reply<bool>)
    ensures var s := StoredContacts(st);
      && (r.value <==> HasId(s, RequestId, id))
      && (!r.value ==> r.store == st)
      && (r.value ==> r.store == st.(contacts := Some(Filter(s, IdIsNot(RequestId, id)))))
      && forall x :: x in StoredContacts(r.store) <==> x in s && x.id != id
  {
    var (kept, removed) := RemoveAll(StoredContacts(st), RequestId, id);
    if !removed then Reply(st, false) else Reply(st.(contacts := Some(kept)), true)
  }

  /** Deleting the id that was just added reports success. */
  lemma DeleteAfterAddContact(st: Store, input: ContactInput, id: string, now: Instant)
    ensures var r := AddContactRequest(st, input, id, now);
      DeleteContactRequest(r.store, id).value
  {
    var r := AddContactRequest(st, input, id, now);
    var s := StoredContacts(r.store);
    assert s[|s| - 1].id == id;
  }

  /** The module runs `initializeData` when it is first loaded, so every key
      is present before any page calls the store; no operation removes a key
      again, so the absent-key branches above are reached only when storage
      is cleared behind the running program. */
  lemma OperationsKeepInitialized(st: Store, id: string)
    requires Initialized(st)
    ensures Init(st) == st
    ensures forall input, today :: Initialized(AddReview(st, input, id, today).store)
    ensures forall u :: Initialized(UpdateReview(st, id, u).store)
    ensures Initialized(DeleteReview(st, id).store)
    ensures forall u :: Initialized(UpdatePricing(st, id, u).store)
    ensures forall input :: Initialized(AddGalleryImage(st, input, id).store)
    ensures forall u :: Initialized(UpdateGalleryImage(st, id, u).store)
    ensures Initialized(DeleteGalleryImage(st, id).store)
    ensures forall input, now :: Initialized(AddContactRequest(st, input, id, now).store)
    ensures Initialized(DeleteContactRequest(st, id).store)
  {
  }
}
