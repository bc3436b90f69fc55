/** Review moderation in `AdminReviewsPage.tsx`: the list newest first, the
    all/published/unpublished tabs, publishing toggles and deletion. */
module AdminReviews {
  import opened Options
  import opened Seqs
  import opened Records
  import DataService

  datatype Tab = All | PublishedTab | UnpublishedTab

  /** `loadReviews`: every stored review, newest first. */
  function Load(st: DataService.Store): (r: (DataService.Store, seq<Review>))
    ensures r.0 == DataService.Init(st)
    ensures SortedDesc(r.1, ReviewDate)
    ensures multiset(r.1) == multiset(DataService.GetReviews(st, false).value)
  {
    var got := DataService.GetReviews(st, false);
    (got.store, SortNewestFirst(got.value, ReviewDate))
  }

  /** Reviews of the same day keep the order they were stored in. */
  lemma LoadKeepsSameDayOrder(st: DataService.Store, day: Instant)
    ensures Filter(Load(st).1, KeyIs(ReviewDate, day))
         == Filter(DataService.GetReviews(st, false).value, KeyIs(ReviewDate, day))
  {
    SortIsStable(DataService.GetReviews(st, false).value, ReviewDate, day);
  }

  /** `filteredReviews` */
  function Shown(reviews: seq<Review>, tab: Tab): (r: seq<Review>)
    ensures tab == All ==> r == reviews
    ensures tab == PublishedTab ==> forall x :: x in r <==> x in reviews && x.published
    ensures tab == UnpublishedTab ==> forall x :: x in r <==> x in reviews && !x.published
    ensures tab == PublishedTab ==> r == Filter(reviews, IsPublished)
    ensures tab == UnpublishedTab ==> r == Filter(reviews, IsUnpublished)
    ensures tab != All ==> |r| <= |reviews|
  {
    match tab
    case All => reviews
    case PublishedTab => Filter(reviews, IsPublished)
    case UnpublishedTab => Filter(reviews, IsUnpublished)
  }

  /** Every tab of a newest-first list is itself newest first. */
  lemma ShownKeepsOrder(reviews: seq<Review>, tab: Tab)
    requires SortedDesc(reviews, ReviewDate)
    ensures SortedDesc(Shown(reviews, tab), ReviewDate)
  {
    match tab
    case All =>
    case PublishedTab => FilterKeepsSorted(reviews, IsPublished, ReviewDate);
    case UnpublishedTab => FilterKeepsSorted(reviews, IsUnpublished, ReviewDate);
  }

  /** The published and unpublished tabs split the list between them: every
      review is counted in exactly one of them, as often as it occurs. */
  lemma TabsPartition(reviews: seq<Review>)
    ensures multiset(Shown(reviews, PublishedTab)) + multiset(Shown(reviews, UnpublishedTab)) == multiset(reviews)
    ensures |Shown(reviews, PublishedTab)| + |Shown(reviews, UnpublishedTab)| == |reviews|
  {
    FilterCounts(reviews, IsPublished);
    FilterCounts(reviews, IsUnpublished);
    var a := multiset(Shown(reviews, PublishedTab)) + multiset(Shown(reviews, UnpublishedTab));
    assert forall x :: a[x] == multiset(reviews)[x];
    assert a == multiset(reviews);
    assert |a| == |multiset(reviews)|;
  }

  function ReviewIdIs(id: string): Review -> bool { (r: Review) => r.id == id }

  /** `handlePublishToggle(id, currentStatus)`: the store's review is updated,
      and in the list every review with that id gets `published` set to the
      negated status while all else stays. */
  function PublishToggle(st: DataService.Store, reviews: seq<Review>, id: string, currentStatus: bool)
    : (r: (DataService.Store, seq<Review>))
    ensures r.0 == DataService.UpdateReview(st, id, PublishPatch(!currentStatus)).store
    ensures |r.1| == |reviews|
    ensures forall i :: 0 <= i < |reviews| && reviews[i].id != id ==> r.1[i] == reviews[i]
    ensures forall i :: 0 <= i < |reviews| && reviews[i].id == id ==>
              r.1[i] == reviews[i].(published := !currentStatus)
  {
    var stored := DataService.UpdateReview(st, id, PublishPatch(!currentStatus)).store;
    (stored, MapWhere(reviews, ReviewIdIs(id), (x: Review) => x.(published := !currentStatus)))
  }

  /** `{ published: p }` */
  function PublishPatch(p: bool): (u: ReviewPatch)
    ensures forall r :: ApplyReviewPatch(r, u) == r.(published := p)
  {
    ReviewPatch(None, None, None, None, None, Some(p))
  }

  /** Toggling twice, each time with the status then shown, restores the list. */
  lemma ToggleTwiceRestores(st: DataService.Store, reviews: seq<Review>, k: int)
    requires 0 <= k < |reviews|
    requires forall i :: 0 <= i < |reviews| && reviews[i].id == reviews[k].id ==>
               reviews[i].published == reviews[k].published
    ensures var once := PublishToggle(st, reviews, reviews[k].id, reviews[k].published);
      PublishToggle(once.0, once.1, reviews[k].id, !reviews[k].published).1 == reviews
  {
  }

  /** `handleDeleteReview(id)` behind a confirmation: when confirmed the store
      deletes and the list loses every review with that id; otherwise nothing
      changes. */
  function DeleteReview(st: DataService.Store, reviews: seq<Review>, id: string, confirmed: bool)
    : (r: (DataService.Store, seq<Review>))
    ensures !confirmed ==> r == (st, reviews)
    ensures confirmed ==> r.0 == DataService.DeleteReview(st, id).store
    ensures confirmed ==> forall x :: x in r.1 <==> x in reviews && x.id != id
    ensures confirmed ==> r.1 == Filter(reviews, DataService.IdIsNot(ReviewId, id))
  {
    if !confirmed then (st, reviews)
    else (DataService.DeleteReview(st, id).store, Filter(reviews, DataService.IdIsNot(ReviewId, id)))
  }

  /** A loaded list (newest first, holding exactly the stored reviews) keeps
      both properties after a delete, confirmed or not, found or not. */
  lemma DeleteKeepsListInOrder(st: DataService.Store, reviews: seq<Review>, id: string, confirmed: bool)
    requires st.reviews.Some?
    requires SortedDesc(reviews, ReviewDate)
    requires multiset(reviews) == multiset(DataService.StoredReviews(st))
    ensures var r := DeleteReview(st, reviews, id, confirmed);
      && SortedDesc(r.1, ReviewDate)
      && multiset(r.1) == multiset(DataService.StoredReviews(r.0))
  {
    if confirmed {
      var s := DataService.StoredReviews(st);
      var keep := DataService.IdIsNot(ReviewId, id);
      FilterKeepsSorted(reviews, keep, ReviewDate);
      FilterSameElements(reviews, s, keep);
      if !DataService.DeleteReview(st, id).value {
        FilterAll(s, keep);
      }
    }
  }
}
