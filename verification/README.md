# Campground site: record store, price estimator and admin list editing

This project models the business logic of a campground website in Dafny. It
covers the parts that hold real logic:

- **Record store.** The browser-local store keeps four collections: reviews,
  pricing options, gallery images and contact requests. Initialisation seeds a
  collection only when its key is absent. The list reads can filter to
  published reviews or featured images. Adds stamp an id and default fields.
  Updates spread a partial record over the first record with the id. Deletes
  report whether anything went.
- **Stay-price estimator** of the contact form. A nightly rate comes from the
  chosen pricing option plus fixed surcharges per adult, per child aged 3 to 12
  and per pet. It is multiplied by the number of nights started. A booking
  summary is appended to the message only when an estimate exists. The form
  resets after a successful submission.
- **Admin session gate.** One fixed credential pair and a stored token.
- **List-editing rules of the pages**:
  - the gallery lightbox, with wrap-around navigation and keyboard shortcuts;
  - review moderation tabs, publishing and deletion;
  - the pricing editor's buffer and feature list;
  - the gallery manager's form validation and local list mirroring;
  - the dashboard's newest-N lists and statistic cards;
  - the public review form and its star rating.

Modelling choices:

- **The store.** It is a record of four optional collections, `DataService.Store`.
  `None` means the storage key is absent. A present key always holds a
  well-formed collection, because malformed stored text is not modelled. The
  source reads each collection back with a `|| '[]'` fallback, so an absent
  key reads as empty.
- **Dates.** Stored dates are modelled as `Records.Instant`, an integer count
  of milliseconds since the epoch. That is what `new Date(...).getTime()` yields.
  The source keeps review dates as `YYYY-MM-DD` text and request dates as ISO
  text, and only ever compares them through `getTime()`.
- **Generated values.** Ids (`Date.now().toString()`) and the current date are
  parameters. Nothing assumes ids are unique, except the lemmas that say so in
  their preconditions.
- **Outside decisions.** `window.confirm` becomes a `confirmed` flag. The
  outcome of the hosted contact insert becomes `insertSucceeded`. The date
  parser the contact form relies on is a parameter `string -> Option<Instant>`.
- **Loaded pricing options.** The contact form's options come from the hosted
  backend and are an input sequence. Their `price_per_night` field is
  `PricingOption.pricePerNight`.
- **`Partial<T>` values.** These are patch records whose fields are `Option`s.
  A missing key is `None`. `{ ...record, ...patch }` keeps each key the patch
  does not carry.
- **JavaScript helpers.** `parseInt` (leading white space, a sign and a decimal
  digit prefix) and `String(n)` are modelled in `Numbers`. `Array.prototype.sort`
  with a date comparator is modelled as a stable insertion sort, newest first.

Where the code is narrower or looser than the site's own description of it,
the model follows the code:

- The contact-request operations (`addContactRequest`, `getContactRequests`,
  `deleteContactRequest`) never call `initializeData` themselves. The review,
  pricing and gallery operations do, and that call also writes an empty
  contact list when the key is absent. The module also calls
  `initializeData` once when it is loaded (`DataService.OperationsKeepInitialized`).
- Deletes remove every record with the id. Updates change only the first one.
- Nothing keeps ids unique. Ids come from `Date.now()`, and two records can
  share one.

Modules follow the source files:

| module | file |
|---|---|
| `Options`, `Seqs`, `Numbers` | shared helpers: `Option`, the array methods used, `parseInt`/`String` |
| `Records` | the record interfaces and partial-record spreading (`dataService.ts`) |
| `DataService` | `src/utils/dataService.ts` |
| `ContactSection` | `src/components/home/ContactSection.tsx` |
| `Auth` | `src/contexts/AuthContext.tsx` |
| `GallerySection` | `src/components/home/GallerySection.tsx` |
| `ReviewsSection` | `src/components/home/ReviewsSection.tsx` |
| `AdminPricing` | `src/pages/AdminPricingPage.tsx` |
| `AdminReviews` | `src/pages/AdminReviewsPage.tsx` |
| `AdminGallery` | `src/pages/AdminGalleryPage.tsx` |
| `AdminDashboard` | `src/pages/AdminDashboardPage.tsx` |

## Model

| member | source | states |
|---|---|---|
| DataService.Init | src/utils/dataService.ts:145-161 | every key ends up present; a key already present keeps its collection; an absent one gets its seed (contacts an empty list); a fully initialised store is left alone |
| DataService.InitIdempotent | src/utils/dataService.ts:145-161 | initialising twice is initialising once |
| DataService.OperationsKeepInitialized | src/utils/dataService.ts:296-297 | once the load-time initialisation has run, every store operation leaves every key present |
| DataService.GetReviews | src/utils/dataService.ts:166-170 | seeds the store; without the flag all stored reviews in order, with it exactly the published ones in stored order |
| DataService.PublishedReviewsCounted | src/utils/dataService.ts:166-170 | the published list holds each published review as often as the store does and no unpublished one |
| DataService.AddReview | src/utils/dataService.ts:172-183 | appends exactly one review carrying the given fields, id and date, unpublished; earlier reviews and other collections are untouched beyond seeding |
| DataService.AddReviewKeepsPublicList | src/utils/dataService.ts:172-183 | adding a review never changes the published list |
| DataService.UpdateFirst | src/utils/dataService.ts:187-192 | no matching id gives `null` and the list unchanged; otherwise only the first matching position is replaced, by the merged record |
| DataService.UpdateReview | src/utils/dataService.ts:185-196 | an unknown id returns `null` and writes only the seeds; a known one merges the patch into the first review with that id, every other position unchanged |
| Records.ReviewPatchLaws | src/utils/dataService.ts:191 | for each of the six keys, spreading keeps it when the patch lacks it and takes the patch's value when it has it; an empty patch is the identity and spreading twice equals once |
| DataService.RemoveAll | src/utils/dataService.ts:198-206 | the flag is true exactly when some record has the id; the kept list is the filter without that id, and shorter exactly when the flag is set |
| DataService.DeleteReview | src/utils/dataService.ts:198-206 | false, with nothing but seeds written, iff no review has the id; otherwise true and every review with the id removed, order kept |
| DataService.GetPricing | src/utils/dataService.ts:209-212 | seeds the store and returns the stored options |
| DataService.UpdatePricing | src/utils/dataService.ts:214-225 | as for reviews: `null` and no change for an unknown id, otherwise only the first matching option merged |
| Records.PricingPatchLaws | src/utils/dataService.ts:220 | for each of the five keys, spreading keeps it when the patch lacks it and takes the patch's value when it has it; an empty patch is the identity, spreading twice equals once |
| DataService.GetGalleryImages | src/utils/dataService.ts:228-232 | seeds the store; with the flag exactly the featured images in order, otherwise all |
| DataService.AddGalleryImage | src/utils/dataService.ts:234-243 | appends exactly the given fields under the new id; nothing else changes beyond seeding |
| DataService.AddGalleryImageListed | src/utils/dataService.ts:228-243 | after an add the full listing ends with the new image, and the featured listing gains it exactly when it is featured |
| DataService.UpdateGalleryImage | src/utils/dataService.ts:245-256 | `null` and no change for an unknown id, otherwise only the first matching image merged |
| Records.GalleryPatchLaws | src/utils/dataService.ts:251 | for each of the five keys, spreading keeps it when the patch lacks it and takes the patch's value when it has it; an empty patch is the identity; spreading twice equals once |
| DataService.DeleteGalleryImage | src/utils/dataService.ts:258-266 | false and no change iff no image has the id; otherwise true and all such images removed, order kept |
| DataService.AddContactRequest | src/utils/dataService.ts:269-280 | appends one request with the given fields, id and time, not responded to, and touches no other key |
| DataService.GetContactRequests | src/utils/dataService.ts:282-284 | reads the requests without seeding; an absent key reads as empty |
| DataService.DeleteContactRequest | src/utils/dataService.ts:286-294 | false and no change iff no request has the id; otherwise true and all such requests removed; no seeding |
| DataService.DeleteAfterAddContact | src/utils/dataService.ts:269-294 | deleting the id just added always reports success |
| Seqs.Filter | src/utils/dataService.ts:169 | the result holds exactly the elements satisfying the test, and is no longer than the input |
| Seqs.FilterCounts | src/utils/dataService.ts:169 | each kept value occurs as often as in the input; rejected values do not occur |
| Seqs.FilterKeepsLength | src/utils/dataService.ts:200-202 | the filter has the input's length iff the test rejects no element, which is how deletes detect a removal |
| Seqs.FilterAppend | src/utils/dataService.ts:169 | filtering distributes over concatenation, so relative order survives |
| Seqs.FilterAll | src/utils/dataService.ts:200-202 | a list whose elements all pass is its own filter |
| Seqs.FilterCongruent | src/pages/AdminGalleryPage.tsx:105 | two tests agreeing on every element give the same filter |
| Seqs.FilterSameElements | src/pages/AdminReviewsPage.tsx:37 | filtering two lists that hold the same elements gives lists that hold the same elements |
| Seqs.FindIndex | src/utils/dataService.ts:187 | -1 iff no element passes; otherwise the first passing index |
| Seqs.Find | src/components/home/ContactSection.tsx:73 | `None` iff no element passes; otherwise the first passing element |
| Seqs.MapWhere | src/pages/AdminPricingPage.tsx:58-64 | same length; passing positions get the mapped value, others keep theirs |
| Seqs.SpliceStart | src/pages/AdminPricingPage.tsx:95 | the start `splice` uses: a negative one counts from the end, both are clamped to the length |
| Seqs.RemoveOne | src/pages/AdminPricingPage.tsx:94-95 | removes the element at the splice start if there is one, else nothing |
| Seqs.RemoveOneInRange | src/pages/AdminPricingPage.tsx:94-95 | at an in-range index exactly that element goes: earlier ones stay, later ones move down, the multiset loses just it |
| Seqs.Take | src/pages/AdminDashboardPage.tsx:18 | a prefix of length min(n, length) |
| Seqs.FilterKeepsSorted | src/pages/AdminReviewsPage.tsx:37 | a filter of a newest-first list is newest first |
| Seqs.Insert | src/pages/AdminReviewsPage.tsx:20-22 | inserting into a newest-first list keeps it newest first and adds exactly the one element |
| Seqs.SortNewestFirst | src/pages/AdminReviewsPage.tsx:20-22 | the result is newest first and a permutation of the input |
| Seqs.InsertKeepsTies | src/pages/AdminReviewsPage.tsx:20-22 | insertion puts the element ahead of the equal-keyed ones already placed and keeps their order |
| Seqs.SortIsStable | src/pages/AdminReviewsPage.tsx:20-22 | equal-keyed elements keep their original relative order |
| Seqs.NewestN | src/pages/AdminDashboardPage.tsx:17-18 | sorting and cutting to n gives min(n, length) elements, newest first, drawn from the input, none left out newer than one kept |
| Seqs.TailNotNewer | src/pages/AdminDashboardPage.tsx:17-18 | in a newest-first list nothing past a cut is newer than anything before it |
| Seqs.CountTrue | src/components/home/ReviewsSection.tsx:82-94 | the count of set flags: all set iff it equals the length, none set iff zero |
| Numbers.ShowNat | src/pages/AdminDashboardPage.tsx:98 | decimal text is non-empty and all digits |
| Numbers.ParseShowInt | src/components/home/ContactSection.tsx:66 | `parseInt` reads back every integer's decimal text |
| ContactSection.ClampCount | src/components/home/ContactSection.tsx:66 | a parsed non-negative count is kept; an unparseable or negative one becomes 0 |
| ContactSection.ClampCountOfShown | src/components/home/ContactSection.tsx:62-68 | typing a count's decimal text stores that count, or 0 for a negative one |
| ContactSection.HandleNumberChange | src/components/home/ContactSection.tsx:62-68 | only the named counter changes, to the clamped value |
| ContactSection.CeilDiv | src/components/home/ContactSection.tsx:86 | the ceiling of the quotient: the least q with n <= d*q |
| ContactSection.Nights | src/components/home/ContactSection.tsx:84-86 | no count iff a date does not parse; otherwise the number of started days between the dates |
| ContactSection.NightsPositiveIffLater | src/components/home/ContactSection.tsx:86-88 | at least one night iff departure is after arrival |
| ContactSection.SelectedOption | src/components/home/ContactSection.tsx:71-74 | found only for a non-empty selection naming a loaded option, and always then; the option found is the first one with that id |
| ContactSection.EstimatePrice | src/components/home/ContactSection.tsx:70-95 | no estimate iff no selection, unknown id, unparseable dates or no nights; otherwise nights >= 1, per night = base + 25·adults + 15·children 3-12 + 10·pets, total = per night × nights |
| ContactSection.InfantsAreFree | src/components/home/ContactSection.tsx:76-81 | children under 3 never change the estimate |
| ContactSection.MoreGuestsCostMore | src/components/home/ContactSection.tsx:77-81 | one more adult, child or pet raises the total by its surcharge per night |
| ContactSection.TwoNightExample | src/components/home/ContactSection.tsx:76-94 | one adult, two nights at 35 gives 60 a night and 120 in all |
| ContactSection.FinalMessage | src/components/home/ContactSection.tsx:103-118 | the typed message is a prefix; it is sent unchanged iff there is no estimate, else exactly followed by the booking summary |
| ContactSection.HandleSubmit | src/components/home/ContactSection.tsx:97-156 | sends the form's fields with the final message and a blank phone as `null`; success resets the form to its initial values and clears the selection, failure keeps both with status error |
| ContactSection.NoEstimateAfterSubmit | src/components/home/ContactSection.tsx:134-147 | after a successful submission no estimate is shown |
| Auth.Mount | src/contexts/AuthContext.tsx:18-24 | authenticated iff a non-empty token is stored |
| Auth.Login | src/contexts/AuthContext.tsx:26-35 | true iff the pair is `admin`/`forestcamp2025`; success stores the token and sets the flag, failure changes nothing |
| Auth.Logout | src/contexts/AuthContext.tsx:37-40 | from any state the token is removed and the flag cleared |
| Auth.SessionSurvivesReload | src/contexts/AuthContext.tsx:18-40 | after a successful login a reload is authenticated; after a logout it is not |
| Auth.WrongCredentialsKeepGateClosed | src/contexts/AuthContext.tsx:28-34 | a wrong pair never opens a closed session or touches the token |
| GallerySection.Open | src/components/home/GallerySection.tsx:16-19 | the lightbox shows the image |
| GallerySection.Close | src/components/home/GallerySection.tsx:21-24 | the lightbox is closed |
| GallerySection.Navigate | src/components/home/GallerySection.tsx:26-39 | nothing open gives nothing; from the first image carrying the open id, next from the last wraps to the first, prev from the first to the last, otherwise one step; an id not in the list closes on prev and goes to the first image on next |
| GallerySection.FirstAtOwnIndex | src/components/home/GallerySection.tsx:29 | with distinct ids every image is the first one carrying its id, so `findIndex` stops at it |
| GallerySection.NextThenPrev | src/components/home/GallerySection.tsx:29-38 | with distinct ids, next then prev, and prev then next, return to the open image |
| GallerySection.KeyDown | src/components/home/GallerySection.tsx:43-53 | ignored while closed; Escape closes, the arrows step, other keys do nothing |
| ReviewsSection.Load | src/components/home/ReviewsSection.tsx:18-21 | seeds the store and lists exactly the published reviews, in stored order and as often as stored |
| ReviewsSection.ToggleForm | src/components/home/ReviewsSection.tsx:167 | only the form's visibility flips |
| ReviewsSection.RatingChange | src/components/home/ReviewsSection.tsx:32-37 | only the rating changes, to the given value |
| ReviewsSection.StarPick | src/components/home/ReviewsSection.tsx:205-209 | the star at index 0..4 sets rating index + 1, always in 1..5, and nothing else on the page changes |
| ReviewsSection.StarClicksKeepRatingInRange | src/components/home/ReviewsSection.tsx:11-15 | from a rating in 1..5, any run of star clicks keeps it in 1..5 and changes only the form |
| ReviewsSection.SubmitReview | src/components/home/ReviewsSection.tsx:39-61 | the store gains exactly the form's review, unpublished, at the end; the earlier stored reviews are kept, the other keys are only seeded; the form resets to empty with rating 5, the status is success, the list on screen is unchanged |
| ReviewsSection.SubmitKeepsListInSync | src/components/home/ReviewsSection.tsx:39-61 | a page showing the published reviews still shows exactly them after a submission |
| ReviewsSection.AfterSuccess | src/components/home/ReviewsSection.tsx:54-57 | the timer closes the form and returns the status to idle; the list and the form fields are kept |
| ReviewsSection.RenderStars | src/components/home/ReviewsSection.tsx:82-94 | five stars, the one at index i filled iff i < rating |
| ReviewsSection.FilledPrefixCount | src/components/home/ReviewsSection.tsx:83-88 | n stars with the first k filled show k clamped to 0..n filled |
| ReviewsSection.FilledStarsShowRating | src/components/home/ReviewsSection.tsx:82-94 | the filled count is the rating clamped to 0..5, the rating itself when in 1..5 |
| AdminPricing.Load | src/pages/AdminPricingPage.tsx:17-22 | lists the stored options with nothing being edited |
| Records.PricingAsPatch | src/pages/AdminPricingPage.tsx:26 | the copied buffer spread over any option gives the copied option |
| AdminPricing.StartEdit | src/pages/AdminPricingPage.tsx:24-27 | the edit id is the option's and the buffer reproduces it |
| AdminPricing.CancelEdit | src/pages/AdminPricingPage.tsx:29-32 | no edit id and an empty buffer, list kept |
| AdminPricing.Change | src/pages/AdminPricingPage.tsx:34-39 | the buffer carries the typed value under its field, other fields kept |
| AdminPricing.Save | src/pages/AdminPricingPage.tsx:41-68 | no change without a buffer id or with a missing field; otherwise the store is updated, only options with the id get the buffer spread over them, and editing ends |
| AdminPricing.SaveUneditedKeepsList | src/pages/AdminPricingPage.tsx:24-68 | with distinct ids, saving straight after starting an edit leaves the list as it was |
| AdminPricing.FeatureChange | src/pages/AdminPricingPage.tsx:70-80 | without features nothing changes; otherwise exactly one feature is replaced and the length kept |
| AdminPricing.AddFeature | src/pages/AdminPricingPage.tsx:82-89 | without features nothing changes; otherwise one empty feature is appended |
| AdminPricing.RemoveFeature | src/pages/AdminPricingPage.tsx:91-101 | without features nothing changes; otherwise `splice(index, 1)`; an in-range index removes exactly that feature, order kept |
| AdminPricing.AddThenRemoveLast | src/pages/AdminPricingPage.tsx:82-101 | adding a feature then removing the last restores the buffer |
| AdminPricing.RemoveMinusOneDropsLast | src/pages/AdminPricingPage.tsx:95 | index -1 removes the last feature |
| AdminPricing.ChangeFeatureBack | src/pages/AdminPricingPage.tsx:70-80 | changing a feature and back restores the buffer |
| AdminReviews.Load | src/pages/AdminReviewsPage.tsx:16-25 | seeds the store; the list is newest first and a permutation of the stored reviews |
| AdminReviews.LoadKeepsSameDayOrder | src/pages/AdminReviewsPage.tsx:20-22 | reviews of the same date keep their stored order |
| AdminReviews.Shown | src/pages/AdminReviewsPage.tsx:41-50 | all shows the list; published exactly the published reviews, unpublished exactly the others, each in list order and as often as listed |
| AdminReviews.ShownKeepsOrder | src/pages/AdminReviewsPage.tsx:41-50 | every tab of a newest-first list is newest first |
| AdminReviews.TabsPartition | src/pages/AdminReviewsPage.tsx:43-46 | the two tabs together hold every review exactly as often as the list |
| AdminReviews.PublishToggle | src/pages/AdminReviewsPage.tsx:27-32 | the store is updated; in the list only reviews with the id change, and only their published flag, to the negated status |
| AdminReviews.PublishPatch | src/pages/AdminReviewsPage.tsx:28 | the patch spread over a review sets only its published flag |
| AdminReviews.ToggleTwiceRestores | src/pages/AdminReviewsPage.tsx:27-32 | toggling twice with the status shown restores the list |
| AdminReviews.DeleteReview | src/pages/AdminReviewsPage.tsx:34-39 | unconfirmed changes nothing; confirmed deletes in the store and drops exactly the reviews with the id from the list |
| AdminReviews.DeleteKeepsListInOrder | src/pages/AdminReviewsPage.tsx:34-39 | a loaded list (newest first, the stored reviews) stays newest first and keeps holding exactly the stored reviews after any delete |
| AdminGallery.Load | src/pages/AdminGalleryPage.tsx:23-28 | seeds the store and lists every stored image |
| AdminGallery.ResetForm | src/pages/AdminGalleryPage.tsx:38-47 | empty fields, not featured, nothing edited, form hidden, list kept |
| AdminGallery.AddImage | src/pages/AdminGalleryPage.tsx:49-66 | an empty url or title changes nothing; otherwise the store and the list each gain exactly the new image at the end, the other keys are only seeded, and the form is reset |
| AdminGallery.AddKeepsPageInSync | src/pages/AdminGalleryPage.tsx:49-66 | a page showing the stored gallery still shows it after an add, accepted or refused |
| AdminGallery.ReplaceById | src/pages/AdminGalleryPage.tsx:84 | same length; images with the id become the updated one, others stay |
| AdminGallery.UpdateImage | src/pages/AdminGalleryPage.tsx:68-88 | not editing or an empty url or title changes nothing; otherwise the store merges the form, the list mirrors a found image and is kept on `null`, and the form is reset |
| AdminGallery.UpdatedImageCarriesForm | src/pages/AdminGalleryPage.tsx:76-81 | an accepted update keeps the id and carries exactly the four form fields |
| AdminGallery.EditImage | src/pages/AdminGalleryPage.tsx:90-99 | the form gets the image's four fields and opens on it |
| AdminGallery.EditThenSaveIsIdentity | src/pages/AdminGalleryPage.tsx:68-99 | editing an image and saving unchanged gives the image back |
| AdminGallery.DeleteImage | src/pages/AdminGalleryPage.tsx:101-108 | unconfirmed changes nothing; confirmed deletes in the store, and the list drops the id only when the store reports success |
| AdminGallery.WithoutId | src/pages/AdminGalleryPage.tsx:105 | exactly the images without the id remain, in order and as often as listed: the same filter the store applies |
| AdminGallery.DeleteKeepsPageInSync | src/pages/AdminGalleryPage.tsx:101-108 | a page showing the stored gallery still shows it after any delete |
| AdminGallery.ToggleFeatured | src/pages/AdminGalleryPage.tsx:110-115 | the store gets the negated flag; the list mirrors a found image and is kept on `null` |
| AdminGallery.ToggleChangesOnlyThatFlag | src/pages/AdminGalleryPage.tsx:110-115 | on the stored list with distinct ids, only that image's featured flag changes, to the negated status |
| AdminDashboard.RecentReviews | src/pages/AdminDashboardPage.tsx:14-18 | at most three reviews, newest first, none shown more often than it waits for moderation |
| AdminDashboard.RecentReviewsAreNewestUnpublished | src/pages/AdminDashboardPage.tsx:15-18 | min(3, waiting) reviews, each stored and unpublished, none shown more often than it waits, and none left waiting newer than one shown |
| AdminDashboard.RecentRequests | src/pages/AdminDashboardPage.tsx:23-26 | min(5, stored) requests, newest first, drawn from the stored ones, none left out newer than one shown |
| AdminDashboard.Mount | src/pages/AdminDashboardPage.tsx:12-30 | reading reviews seeds the store; reading requests does not |
| AdminDashboard.FreshDashboardIsQuiet | src/pages/AdminDashboardPage.tsx:12-30 | on a fresh browser both lists are empty, since every seeded review is published |
| AdminDashboard.RequestStat | src/pages/AdminDashboardPage.tsx:98 | the card's text parses back to the number of listed requests |
| AdminDashboard.RequestStatAtMost5 | src/pages/AdminDashboardPage.tsx:98 | right after mounting the card shows at most 5, not the stored total |
| AdminDashboard.DeleteRequest | src/pages/AdminDashboardPage.tsx:32-37 | unconfirmed changes nothing; confirmed deletes in the store and drops exactly the requests with the id from the list, keeping the rest in order |
| AdminDashboard.DeleteKeepsRequestsInOrder | src/pages/AdminDashboardPage.tsx:32-37 | a newest-first request list stays newest first through a delete, and every survivor stays listed as often as before |
| AdminDashboard.MountedRequestsNewestFirst | src/pages/AdminDashboardPage.tsx:23-28 | right after mounting the request list is newest first |
| AdminDashboard.ListedRequestsStayStored | src/pages/AdminDashboardPage.tsx:32-37 | listed requests that were stored are still stored after a delete |
| AdminDashboard.MountedRequestsAreStored | src/pages/AdminDashboardPage.tsx:23-28 | right after mounting every listed request is a stored one |
| AdminDashboard.StatCardsAsWritten | src/pages/AdminDashboardPage.tsx:78-101 | the cards read 15, 4 and 6 whatever is stored, then the listed-request count |
| AdminDashboard.TotalReviewsCardDisagrees | src/pages/AdminDashboardPage.tsx:78-83 | on a fresh browser the reviews card reads 15 while three reviews are stored |
| AdminDashboard.StatCards | src/pages/AdminDashboardPage.tsx:78-101 | each card parses back to the stored count of its collection, or to the listed-request count |
| AdminDashboard.CountedCardsOnFreshStore | src/pages/AdminDashboardPage.tsx:78-101 | on a fresh browser the counted cards match the fixed pricing and gallery cards, and the reviews card reads 3 |

## Left out

- The hosted backend is not modelled. The contact form's pricing fetch is replaced by an input sequence. The contact insert is replaced by the `insertSucceeded` flag. Both are network calls into a library this model cannot see.
- The load-time `initializeData()` call is not a separate step. A store operation may start from any storage, so the model also covers the absent-key branches. In the program those branches are reachable only when storage is cleared after the module has loaded.
- Browser storage and JSON are not modelled as text. A present key is assumed to hold a well-formed collection, so malformed stored data and storage quota errors are out.
- `Date.now()`, `new Date()` and ISO date text are out. Ids and times are parameters. Date strings become `Instant`s through a parameter. The `toISOString().split('T')[0]` rendering of the review date is not modelled.
- `Math.ceil` over a floating-point quotient is modelled as exact integer ceiling division of the millisecond difference. This agrees for integer millisecond values of realistic size.
- `ContactSection.Fixed2`: `toFixed(2)` is modelled only on integers (`n.00`), because every price in the model is an integer.
- Numbers.ParseInt does not model `parseInt`'s `0x` hexadecimal prefix or the loss of precision above 2^53. A number input does not accept the hex prefix. It does accept digit strings above 2^53, such as `99999999999999999999`. For those, `parseInt` gives a rounded double and `ContactSection.ClampCount` the exact integer.
- `ContactSection.HandleNumberChange` keeps the counters as natural numbers. `handleInputChange` on text fields is not modelled, since it only stores the typed text.
- AdminPricing.FeatureChange requires an index inside the feature list. The page only offers existing indices. Writing past the end of a JavaScript array, which leaves holes, is not modelled.
- AdminPricing.Save checks the buffer's fields by presence. The source also checks `typeof`. The model's fields cannot have the wrong type, and a `NaN` price, which passes `typeof number`, is not modelled.
- ReviewsSection.SubmitReview always succeeds. The `catch` branch that sets the error status is reachable only through storage failures, which are not modelled.
- Timers are out, except where their effect is a plain state change (`ReviewsSection.AfterSuccess`). So are `alert`, scrolling, `document.body.style`, animations and the loading flags.
- Routing, the dark-mode toggle, the pricing context (a bare setter whose value is an input here) and the static content pages are out. They hold no logic beyond presentation.

## Findings

| source | as written | input that shows it | evidently intended | confidence | as-written member | corrected member |
|---|---|---|---|---|---|---|
| src/pages/AdminDashboardPage.tsx:78-83 | the "Total Reviews" card shows the fixed text `15` | a fresh browser, where the store holds the three seeded reviews | the number of stored reviews, as the contact-request card counts its list (the pricing and gallery cards' fixed 4 and 6 equal the seed sizes) | medium, not executed | AdminDashboard.TotalReviewsCardDisagrees | AdminDashboard.StatCards |
