/** The public reviews block of `ReviewsSection.tsx`: the published reviews
    with their star ratings, and the form a visitor uses to leave a review,
    which then waits for moderation. */
module ReviewsSection {
  import opened Options
  import opened Seqs
  import opened Records
  import DataService

  const StarCount := 5
  const DefaultRating := 5

  datatype ReviewForm = ReviewForm(name: string, rating: int, comment: string)

  const BlankForm := ReviewForm("", DefaultRating, "")

  datatype SubmitStatus = Idle | Submitting | Success | Error

  /** The listed reviews, whether the form is open, its fields and the
      submission status. */
  datatype ReviewsPage = ReviewsPage(
    reviews: seq<Review>, showForm: bool, form: ReviewForm, status: SubmitStatus)

  /** The mount effect: `getReviews(true)`, which also seeds the storage. */
  function Load(st: DataService.Store): (r: (DataService.Store, ReviewsPage))
    ensures r.0 == DataService.Init(st)
    ensures forall x :: x in r.1.reviews <==> x in DataService.StoredReviews(r.0) && x.published
    ensures r.1.reviews == Filter(DataService.StoredReviews(r.0), IsPublished)
    ensures !r.1.showForm && r.1.form == BlankForm && r.1.status == Idle
  {
    var got := DataService.GetReviews(st, true);
    (got.store, ReviewsPage(got.value, false, BlankForm, Idle))
  }

  /** The "Write a Review" / "Cancel Review" button. */
  function ToggleForm(page: ReviewsPage): (r: ReviewsPage)
    ensures r.showForm == !page.showForm
    ensures r.reviews == page.reviews && r.form == page.form && r.status == page.status
  {
    page.(showForm := !page.showForm)
  }

  /** `handleRatingChange(newRating)` */
  function RatingChange(page: ReviewsPage, newRating: int): (r: ReviewsPage)
    ensures r.form.rating == newRating
    ensures r.form.name == page.form.name && r.form.comment == page.form.comment
    ensures r.reviews == page.reviews && r.showForm == page.showForm && r.status == page.status
  {
    page.(form := page.form.(rating := newRating))
  }

  /** A click on the star button at `index` (0 to 4) picks rating `index + 1`. */
  function StarPick(page: ReviewsPage, index: int): (r: ReviewsPage)
    requires 0 <= index < StarCount
    ensures 1 <= r.form.rating <= StarCount && r.form.rating == index + 1
    ensures r.form.name == page.form.name && r.form.comment == page.form.comment
    ensures r.reviews == page.reviews && r.showForm == page.showForm && r.status == page.status
  {
    RatingChange(page, index + 1)
  }

  /** The rating stays a whole number of stars between one and five through
      any sequence of star clicks, starting from the default. */
  lemma {:induction false} StarClicksKeepRatingInRange(page: ReviewsPage, clicks: seq<int>)
    requires 1 <= page.form.rating <= StarCount
    requires forall i :: 0 <= i < |clicks| ==> 0 <= clicks[i] < StarCount
    ensures 1 <= Clicks(page, clicks).form.rating <= StarCount
    ensures Clicks(page, clicks) == page.(form := Clicks(page, clicks).form)
    decreases |clicks|
  {
    if |clicks| > 0 {
      StarClicksKeepRatingInRange(StarPick(page, clicks[0]), clicks[1..]);
    }
  }

  /** The page after the given star clicks, in order. */
  function Clicks(page: ReviewsPage, clicks: seq<int>): ReviewsPage
    requires forall i :: 0 <= i < |clicks| ==> 0 <= clicks[i] < StarCount
    decreases |clicks|
  {
    if |clicks| == 0 then page else Clicks(StarPick(page, clicks[0]), clicks[1..])
  }

  /** `handleSubmitReview`, with `id` and `today` the id and date the store
      stamps: the review is stored unpublished, the form returns to its blank
      state with the default rating, the status becomes success, and the list
      on screen is not changed. */
  function SubmitReview(st: DataService.Store, page: ReviewsPage, id: string, today: Instant)
    : (r: (DataService.Store, ReviewsPage))
    ensures var stored := DataService.StoredReviews(r.0);
      && |stored| == |DataService.StoredReviews(DataService.Init(st))| + 1
      && stored[|stored| - 1] == Review(id, page.form.name, page.form.rating, page.form.comment, today, false)
      && stored[..|stored| - 1] == DataService.StoredReviews(DataService.Init(st))
    ensures r.0 == DataService.Init(st).(reviews := r.0.reviews)
    ensures r.1 == page.(form := BlankForm, status := Success)
  {
    var input := DataService.ReviewInput(page.form.name, page.form.rating, page.form.comment);
    var added := DataService.AddReview(st, input, id, today);
    (added.store, page.(form := BlankForm, status := Success))
  }

  /** A page that shows the published reviews still shows exactly them after
      a submission: the new review is not public yet. */
  lemma SubmitKeepsListInSync(st: DataService.Store, page: ReviewsPage, id: string, today: Instant)
    requires page.reviews == DataService.GetReviews(st, true).value
    ensures var r := SubmitReview(st, page, id, today);
      r.1.reviews == DataService.GetReviews(r.0, true).value
  {
    var input := DataService.ReviewInput(page.form.name, page.form.rating, page.form.comment);
    DataService.AddReviewKeepsPublicList(st, input, id, today);
  }

  /** The timer two seconds after a success: the form closes and the status
      returns to idle. */
  function AfterSuccess(page: ReviewsPage): (r: ReviewsPage)
    ensures !r.showForm && r.status == Idle
    ensures r.reviews == page.reviews && r.form == page.form
  {
    page.(showForm := false, status := Idle)
  }

  /** `renderStars(rating)`: five stars, the one at `index` filled when
      `index < rating`. */
  function RenderStars(rating: int): (filled: seq<bool>)
    ensures |filled| == StarCount
    ensures forall i :: 0 <= i < StarCount ==> (filled[i] <==> i < rating)
  {
    FilledPrefix(StarCount, rating)
  }

  /** `n` flags, the first `k` of them set. */
  function FilledPrefix(n: nat, k: int): (s: seq<bool>)
    ensures |s| == n
    ensures forall i :: 0 <= i < n ==> (s[i] <==> i < k)
  {
    seq(n, i => i < k)
  }

  /** `k` clamped into `0..n`. */
  function Clamp(k: int, n: nat): nat {
    if k < 0 then 0 else if k > n then n else k
  }

  lemma {:induction false} FilledPrefixCount(n: nat, k: int)
    ensures CountTrue(FilledPrefix(n, k)) == Clamp(k, n)
  {
    if n > 0 {
      var s := FilledPrefix(n, k);
      FilledPrefixCount(n - 1, k - 1);
      assert s[1..] == FilledPrefix(n - 1, k - 1);
    }
  }

  /** The number of filled stars is the rating, cut into `0..5`: a rating of
      seven shows five stars, a negative one none. */
  lemma FilledStarsShowRating(rating: int)
    ensures CountTrue(RenderStars(rating)) == Clamp(rating, StarCount)
    ensures 1 <= rating <= StarCount ==> CountTrue(RenderStars(rating)) == rating
  {
    FilledPrefixCount(StarCount, rating);
  }
}
