/** The admin overview of `AdminDashboardPage.tsx`: the three newest
    unpublished reviews, the five newest contact requests, the statistic
    cards and deleting a request from the overview. */
module AdminDashboard {
  import opened Options
  import opened Seqs
  import opened Records
  import opened Numbers
  import DataService

  const RecentReviewCount := 3
  const RecentRequestCount := 5

  /** The two lists the overview shows. */
  datatype Dashboard = Dashboard(recentReviews: seq<Review>, requests: seq<ContactRequest>)

  /** Unpublished reviews, newest first, cut to three. */
  function RecentReviews(all: seq<Review>): (r: seq<Review>)
    ensures |r| <= RecentReviewCount
    ensures SortedDesc(r, ReviewDate)
    ensures multiset(r) <= multiset(Filter(all, IsUnpublished))
  {
    NewestN(Filter(all, IsUnpublished), ReviewDate, RecentReviewCount);
    Take(SortNewestFirst(Filter(all, IsUnpublished), ReviewDate), RecentReviewCount)
  }

  /** The overview's review list is exactly what moderation is waiting for:
      as many unpublished reviews as there are, up to three, each one stored
      and unpublished, none shown more often than it waits, and none left
      waiting that is newer than one shown. */
  lemma RecentReviewsAreNewestUnpublished(all: seq<Review>)
    ensures var waiting := Filter(all, IsUnpublished);
      |RecentReviews(all)| == if |waiting| < RecentReviewCount then |waiting| else RecentReviewCount
    ensures forall i :: 0 <= i < |RecentReviews(all)| ==> RecentReviews(all)[i] in all && !RecentReviews(all)[i].published
    ensures multiset(RecentReviews(all)) <= multiset(Filter(all, IsUnpublished))
    ensures forall y, i :: (y in multiset(Filter(all, IsUnpublished)) - multiset(RecentReviews(all)) &&
                            0 <= i < |RecentReviews(all)|) ==> y.date <= RecentReviews(all)[i].date
  {
    var r := RecentReviews(all);
    RecentCount(all);
    ShownAreWaiting(all, r);
    LeftWaitingAreOlder(all);
  }

  lemma RecentCount(all: seq<Review>)
    ensures var waiting := Filter(all, IsUnpublished);
      |RecentReviews(all)| == if |waiting| < RecentReviewCount then |waiting| else RecentReviewCount
  {
    NewestN(Filter(all, IsUnpublished), ReviewDate, RecentReviewCount);
  }

  lemma LeftWaitingAreOlder(all: seq<Review>)
    ensures forall y, i :: (y in multiset(Filter(all, IsUnpublished)) - multiset(RecentReviews(all)) &&
                            0 <= i < |RecentReviews(all)|) ==> y.date <= RecentReviews(all)[i].date
  {
    var waiting := Filter(all, IsUnpublished);
    var r := RecentReviews(all);
    assert r == Take(SortNewestFirst(waiting, ReviewDate), RecentReviewCount);
    NewestN(waiting, ReviewDate, RecentReviewCount);
    forall y: Review, i | y in multiset(waiting) - multiset(r) && 0 <= i < |r|
      ensures y.date <= r[i].date
    {
      assert ReviewDate(y) <= ReviewDate(r[i]);
    }
  }

  lemma ShownAreWaiting(all: seq<Review>, r: seq<Review>)
    requires multiset(r) <= multiset(Filter(all, IsUnpublished))
    ensures forall i :: 0 <= i < |r| ==> r[i] in all && !r[i].published
  {
    forall i | 0 <= i < |r|
      ensures r[i] in all && !r[i].published
    {
      assert r[i] in multiset(r);
      assert r[i] in Filter(all, IsUnpublished);
    }
  }

  /** Every contact request, newest first, cut to five. */
  function RecentRequests(all: seq<ContactRequest>): (r: seq<ContactRequest>)
    ensures |r| == if |all| < RecentRequestCount then |all| else RecentRequestCount
    ensures SortedDesc(r, RequestDate)
    ensures multiset(r) <= multiset(all)
    ensures forall y, i :: y in multiset(all) - multiset(r) && 0 <= i < |r| ==> y.dateSubmitted <= r[i].dateSubmitted
  {
    NewestN(all, RequestDate, RecentRequestCount);
    Take(SortNewestFirst(all, RequestDate), RecentRequestCount)
  }

  /** The mount effect: `getReviews` seeds the storage; `getContactRequests`
      leaves it alone. */
  function Mount(st: DataService.Store): (r: (DataService.Store, Dashboard))
    ensures r.0 == DataService.Init(st)
    ensures r.1.recentReviews == RecentReviews(DataService.StoredReviews(DataService.Init(st)))
    ensures r.1.requests == RecentRequests(DataService.StoredContacts(st))
  {
    var reviews := DataService.GetReviews(st, false);
    var requests := DataService.GetContactRequests(reviews.store);
    (reviews.store, Dashboard(RecentReviews(reviews.value), RecentRequests(requests)))
  }

  /** On a fresh browser the overview shows no review to moderate (every
      seeded review is published) and no request. */
  lemma FreshDashboardIsQuiet()
    ensures Mount(DataService.Empty).1 == Dashboard([], [])
  {
    var all := DataService.InitialReviews;
    assert DataService.StoredReviews(DataService.Init(DataService.Empty)) == all;
    assert forall x :: x in Filter(all, IsUnpublished) ==> x in all && !x.published;
    assert Filter(all, IsUnpublished) == [];
  }

  /** The "Contact Requests" card: the number of listed requests as decimal
      text (`length.toString()`). */
  function RequestStat(requests: seq<ContactRequest>): (t: string)
    ensures ParseInt(t) == Some(|requests|)
  {
    ParseShowInt(|requests|);
    ShowInt(|requests|)
  }

  /** Right after mounting the card never reads more than five. */
  lemma RequestStatAtMost5(st: DataService.Store)
    ensures var t := RequestStat(Mount(st).1.requests);
      ParseInt(t).Some? && 0 <= ParseInt(t).value <= RecentRequestCount
  {
  }

  /** The four statistic cards as the page writes them: three fixed texts
      and the listed-request count. */
  function StatCardsAsWritten(d: Dashboard): (cards: seq<string>)
    ensures |cards| == 4
    ensures cards[..3] == ["15", "4", "6"]
    ensures ParseInt(cards[3]) == Some(|d.requests|)
  {
    ["15", "4", "6", RequestStat(d.requests)]
  }

  /** On a fresh browser the "Total Reviews" card reads 15 while the store
      holds the three seeded reviews. */
  lemma TotalReviewsCardDisagrees()
    ensures var (st, d) := Mount(DataService.Empty);
      && StatCardsAsWritten(d)[0] == "15"
      && |DataService.StoredReviews(st)| == 3
  {
  }

  /** The cards counted from the store: reviews, pricing options and gallery
      images as stored, and the listed requests. */
  function StatCards(st: DataService.Store, d: Dashboard): (cards: seq<string>)
    ensures |cards| == 4
    ensures ParseInt(cards[0]) == Some(|DataService.StoredReviews(st)|)
    ensures ParseInt(cards[1]) == Some(|DataService.StoredPricing(st)|)
    ensures ParseInt(cards[2]) == Some(|DataService.StoredGallery(st)|)
    ensures ParseInt(cards[3]) == Some(|d.requests|)
  {
    ParseShowInt(|DataService.StoredReviews(st)|);
    ParseShowInt(|DataService.StoredPricing(st)|);
    ParseShowInt(|DataService.StoredGallery(st)|);
    [ShowInt(|DataService.StoredReviews(st)|), ShowInt(|DataService.StoredPricing(st)|),
     ShowInt(|DataService.StoredGallery(st)|), RequestStat(d.requests)]
  }

  /** On a fresh browser the counted cards agree with the fixed ones except
      for the review count, which reads 3. */
  lemma CountedCardsOnFreshStore()
    ensures var (st, d) := Mount(DataService.Empty);
      var counted := StatCards(st, d);
      && counted[1..] == StatCardsAsWritten(d)[1..]
      && counted[0] == "3"
  {
    var (st, d) := Mount(DataService.Empty);
    assert ShowInt(3) == "3" && ShowInt(4) == "4" && ShowInt(6) == "6";
    assert |DataService.StoredPricing(st)| == 4;
    assert |DataService.StoredGallery(st)| == 6;
  }

  /** `handleDeleteRequest(id)`: only a confirmed delete reaches the store;
      the list then drops the id whether or not the store found it. */
  function DeleteRequest(st: DataService.Store, d: Dashboard, id: string, confirmed: bool)
    : (r: (DataService.Store, Dashboard))
    ensures !confirmed ==> r == (st, d)
    ensures confirmed ==> r.0 == DataService.DeleteContactRequest(st, id).store
    ensures confirmed ==> r.1.recentReviews == d.recentReviews
    ensures confirmed ==> forall x :: x in r.1.requests <==> x in d.requests && x.id != id
    ensures confirmed ==> r.1.requests == Filter(d.requests, DataService.IdIsNot(RequestId, id))
  {
    if !confirmed then (st, d)
    else
      var answer := DataService.DeleteContactRequest(st, id);
      FilterCongruent(d.requests, (x: ContactRequest) => x.id != id, DataService.IdIsNot(RequestId, id));
      (answer.store, d.(requests := Filter(d.requests, (x: ContactRequest) => x.id != id)))
  }

  /** The request list stays newest first through a delete, and keeps the
      survivors as often as they were listed. */
  lemma DeleteKeepsRequestsInOrder(st: DataService.Store, d: Dashboard, id: string, confirmed: bool)
    requires SortedDesc(d.requests, RequestDate)
    ensures var r := DeleteRequest(st, d, id, confirmed);
      && SortedDesc(r.1.requests, RequestDate)
      && forall x :: multiset(r.1.requests)[x] == if x.id != id || !confirmed then multiset(d.requests)[x] else 0
  {
    var keep := DataService.IdIsNot(RequestId, id);
    FilterKeepsSorted(d.requests, keep, RequestDate);
    FilterCounts(d.requests, keep);
  }

  /** Right after mounting the request list is newest first, so it stays so
      through any run of deletes. */
  lemma MountedRequestsNewestFirst(st: DataService.Store)
    ensures SortedDesc(Mount(st).1.requests, RequestDate)
  {
  }

  /** Every request the overview lists is still stored after a delete, when
      it was stored before. */
  lemma ListedRequestsStayStored(st: DataService.Store, d: Dashboard, id: string, confirmed: bool)
    requires forall x :: x in d.requests ==> x in DataService.StoredContacts(st)
    ensures var r := DeleteRequest(st, d, id, confirmed);
      forall x :: x in r.1.requests ==> x in DataService.StoredContacts(r.0)
  {
  }

  /** Right after mounting, every listed request is a stored one. */
  lemma MountedRequestsAreStored(st: DataService.Store)
    ensures forall x :: x in Mount(st).1.requests ==> x in DataService.StoredContacts(Mount(st).0)
  {
    var r := Mount(st);
    forall x | x in r.1.requests
      ensures x in DataService.StoredContacts(r.0)
    {
      assert x in multiset(r.1.requests);
    }
  }
}
