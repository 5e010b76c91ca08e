/** Reviews (src/components/reviews): the star widget, the card showing one
    review, the carousel on a product page, the paged list of all reviews
    and the form a buyer fills in after delivery. */
module Reviews {
  import opened Wrappers
  import opened Text
  import opened Sorting
  import Orders

  /** A row of `reviews`, with the joined buyer name. A rating is a number
      of whole stars; a missing rating or comment is `None`. */
  datatype Review = Review(
    id: string,
    buyerName: Option<string>,
    createdAt: int,
    productRating: Option<int>,
    sellerRating: Option<int>,
    productComment: Option<string>,
    sellerComment: Option<string>,
    images: Option<seq<string>>)

  /** The `type` prop: which half of a review a card or list shows. */
  datatype Kind = ProductKind | SellerKind

  // ---------------------------------------------------------------- StarRating

  /** JavaScript `Math.ceil`. */
  function Ceil(x: real): (n: int)
    ensures n as real - 1.0 < x <= n as real
  {
    -((-x).Floor)
  }

  /** Star `k` is drawn full: `k <= value`. */
  predicate Filled(k: int, value: real) {
    k as real <= value
  }

  /** Star `k` is drawn as the half star: `k === Math.ceil(value)` and
      `value % 1 !== 0`, that is, `value` is not whole. */
  predicate Half(k: int, value: real) {
    k == Ceil(value) && value != value.Floor as real
  }

  /** Star `k` gets the highlight colour. */
  predicate Highlighted(k: int, value: real) {
    Filled(k, value) || Half(k, value)
  }

  /** A star is highlighted exactly when it is at most `ceil(value)`. */
  lemma HighlightedIsCeiling(k: int, value: real)
    ensures Highlighted(k, value) <==> k <= Ceil(value)
  {
    var c := Ceil(value);
    if value == value.Floor as real {
      assert c == value.Floor;
    } else {
      assert c == value.Floor + 1;
    }
  }

  /** Highlighted stars among the first `m` of the row. */
  function HighlightedUpTo(m: nat, value: real): (n: nat)
    ensures n <= m
  {
    if m == 0 then 0
    else HighlightedUpTo(m - 1, value) + (if Highlighted(m, value) then 1 else 0)
  }

  /** The widget draws exactly five stars. */
  const StarCount: nat := 5

  /** The number of highlighted stars is `ceil(value)` kept within 0 and the
      row length; for a value from 0 to 5 it is `ceil(value)` itself. */
  lemma {:induction false} StarsShowCeiling(m: nat, value: real)
    ensures HighlightedUpTo(m, value) == if Ceil(value) <= 0 then 0 else if Ceil(value) >= m then m else Ceil(value)
  {
    if m > 0 {
      StarsShowCeiling(m - 1, value);
      HighlightedIsCeiling(m, value);
    }
  }

  lemma HighlightedStarsInRange(value: real)
    requires 0.0 <= value <= 5.0
    ensures HighlightedUpTo(StarCount, value) == Ceil(value)
  {
    StarsShowCeiling(StarCount, value);
  }

  /** Clicking star `k`: the value handed to `onChange`, when the widget is
      interactive (`!readonly && onChange`). */
  function Click(k: int, readonly: bool, hasOnChange: bool): (r: Option<int>)
    ensures r.Some? <==> !StarsDisabled(readonly, hasOnChange)
    ensures r.Some? ==> r.value == k
  {
    if !readonly && hasOnChange then Some(k) else None
  }

  /** The buttons' `disabled` attribute: `!isInteractive`. */
  predicate StarsDisabled(readonly: bool, hasOnChange: bool) {
    !(!readonly && hasOnChange)
  }

  // ---------------------------------------------------------------- ReviewCard

  /** The rating a card shows: the seller's for the seller type, the
      product's otherwise. */
  function CardRating(r: Review, kind: Kind): Option<int> {
    if kind == SellerKind then r.sellerRating else r.productRating
  }

  function CardComment(r: Review, kind: Kind): Option<string> {
    if kind == SellerKind then r.sellerComment else r.productComment
  }

  /** `rating && rating > 0`: the stars and comment are rendered. */
  predicate HasReview(r: Review, kind: Kind) {
    CardRating(r, kind).Some? && CardRating(r, kind).value > 0
  }

  /** Review photos are rendered only on product cards with at least one photo. */
  predicate ShowImages(r: Review, kind: Kind) {
    kind == ProductKind && r.images.Some? && |r.images.value| > 0
  }

  /** `full_name?.charAt(0)?.toUpperCase() || 'A'`. */
  function BuyerInitial(r: Review): (s: string)
    ensures |s| == 1
    ensures !Truthy(r.buyerName) ==> s == "A"
    ensures Truthy(r.buyerName) ==> s[0] == UpperChar(r.buyerName.value[0])
  {
    if Truthy(r.buyerName) then Upper(r.buyerName.value[..1]) else "A"
  }

  /** `full_name || 'Acheteur'`. */
  function BuyerLabel(r: Review): (s: string)
    ensures s != ""
    ensures Truthy(r.buyerName) ==> s == r.buyerName.value
  {
    OrElse(r.buyerName, "Acheteur")
  }

  // ---------------------------------------------------------------- ReviewCarousel

  /** The carousel's state: the shown index and the last touch coordinates. */
  datatype Carousel = Carousel(index: int, touchStart: int, touchEnd: int)

  /** The state a carousel mounts with. */
  const CarouselStart := Carousel(0, 0, 0)

  /** Gestures and taps; `Dot(i)` is a click on the `i`-th indicator. */
  datatype Gesture = TouchStart(x: int) | TouchMove(x: int) | TouchEnd | Next | Prev | Dot(i: nat)

  /** The swipe threshold in pixels. */
  const SwipeThreshold := 75

  /** `(prev + 1) % reviews.length`. */
  function NextIndex(i: int, n: nat): (j: int)
    requires n > 0
    ensures 0 <= j < n
    ensures 0 <= i < n - 1 ==> j == i + 1
    ensures i == n - 1 ==> j == 0
  {
    (i + 1) % n
  }

  /** `(prev - 1 + reviews.length) % reviews.length`. */
  function PrevIndex(i: int, n: nat): (j: int)
    requires n > 0
    ensures 0 <= j < n
    ensures 0 < i < n ==> j == i - 1
    ensures i == 0 ==> j == n - 1
  {
    (i - 1 + n) % n
  }

  /** Going forward then back returns to the same review, and so does going
      back then forward. */
  lemma PrevUndoesNext(i: int, n: nat)
    requires n > 0 && 0 <= i < n
    ensures PrevIndex(NextIndex(i, n), n) == i
    ensures NextIndex(PrevIndex(i, n), n) == i
  {
  }

  /** `handleTouchEnd` as written: the distance is measured from the last
      recorded `touchEnd`, which a new touch does not reset. */
  function SwipeEnd(c: Carousel, n: nat): Carousel
    requires n > 0
  {
    var d := c.touchStart - c.touchEnd;
    var i := if d > SwipeThreshold then NextIndex(c.index, n) else c.index;
    var j := if d < -SwipeThreshold then PrevIndex(i, n) else i;
    c.(index := j)
  }

  /** One event on a carousel of `n > 0` reviews, as written. */
  function StepAsWritten(c: Carousel, n: nat, g: Gesture): (r: Carousel)
    requires n > 0
    ensures 0 <= c.index < n ==> 0 <= r.index < n
  {
    match g
    case TouchStart(x) => c.(touchStart := x)
    case TouchMove(x) => c.(touchEnd := x)
    case TouchEnd => SwipeEnd(c, n)
    case Next => c.(index := NextIndex(c.index, n))
    case Prev => c.(index := PrevIndex(c.index, n))
    case Dot(i) => if i < n then c.(index := i) else c
  }

  /** A swipe moves to the next review when the finger travels more than
      75 pixels to the left, to the previous one beyond 75 pixels to the
      right, and not at all in between. */
  lemma SwipeDirection(c: Carousel, n: nat, x: int, y: int)
    requires n > 0 && 0 <= c.index < n
    ensures var r := StepAsWritten(StepAsWritten(StepAsWritten(c, n, TouchStart(x)), n, TouchMove(y)), n, TouchEnd);
            && (x - y > SwipeThreshold ==> r.index == NextIndex(c.index, n))
            && (x - y < -SwipeThreshold ==> r.index == PrevIndex(c.index, n))
            && (-SwipeThreshold <= x - y <= SwipeThreshold ==> r.index == c.index)
  {
  }

  /** A tap, with no move between touching and lifting the finger, still
      swipes: on a fresh carousel the distance is measured against the
      initial `touchEnd` of 0. */
  lemma TapSwipesAsWritten()
    ensures StepAsWritten(StepAsWritten(CarouselStart, 2, TouchStart(100)), 2, TouchEnd).index == 1
  {
  }

  /** One event with the touch end reset when a touch starts, so that a
      touch without a move measures no distance. */
  function Step(c: Carousel, n: nat, g: Gesture): (r: Carousel)
    requires n > 0
    ensures 0 <= c.index < n ==> 0 <= r.index < n
    ensures g.TouchStart? ==> r.index == c.index && r.touchStart == r.touchEnd == g.x
  {
    match g
    case TouchStart(x) => c.(touchStart := x, touchEnd := x)
    case _ => StepAsWritten(c, n, g)
  }

  /** With the reset, a tap never changes the review shown, and a swipe
      still moves exactly as it did. */
  lemma TapKeepsIndex(c: Carousel, n: nat, x: int, y: int)
    requires n > 0 && 0 <= c.index < n
    ensures Step(Step(c, n, TouchStart(x)), n, TouchEnd).index == c.index
    ensures Step(Step(Step(c, n, TouchStart(x)), n, TouchMove(y)), n, TouchEnd)
         == StepAsWritten(StepAsWritten(StepAsWritten(c, n, TouchStart(x)), n, TouchMove(y)), n, TouchEnd)
                .(touchEnd := y)
  {
  }

  /** What the carousel renders around the current card. */
  datatype CarouselView = EmptyState | Cards(dots: bool, viewAll: bool)

  /** An empty list renders the empty state; otherwise the dots appear for
      more than one review and "Voir tous" when there are more reviews than
      shown and a callback is given. */
  function CarouselLayout(n: nat, totalCount: int, hasOnViewAll: bool): (v: CarouselView)
    ensures v.EmptyState? <==> n == 0
    ensures v.Cards? ==> (v.dots <==> n > 1)
    ensures v.Cards? ==> (v.viewAll <==> totalCount > n && hasOnViewAll)
  {
    if n == 0 then EmptyState else Cards(n > 1, totalCount > n && hasOnViewAll)
  }

  // ---------------------------------------------------------------- ReviewsModal

  /** The sort selector. */
  datatype SortOption = Recent | Highest | Lowest

  /** Reviews per page. */
  const PageSize: nat := 10

  /** `a.product_rating || 0` (or the seller's for the seller type). */
  function RatingKey(kind: Kind): Review -> real {
    (r: Review) => (if kind == SellerKind then r.sellerRating else r.productRating).GetOr(0) as real
  }

  function CreatedKey(r: Review): real {
    r.createdAt as real
  }

  /** The key and direction a sort option compares on. */
  function SortKey(sort: SortOption, kind: Kind): Review -> real {
    if sort == Recent then CreatedKey else RatingKey(kind)
  }

  predicate SortDesc(sort: SortOption) {
    sort != Lowest
  }

  /** `sortReviews`: a sorted copy, best first, worst first or newest first. */
  function SortReviews(data: seq<Review>, sort: SortOption, kind: Kind): (r: seq<Review>)
    ensures multiset(r) == multiset(data)
    ensures sort == Highest ==> forall i, j :: 0 <= i < j < |r| ==> RatingKey(kind)(r[i]) >= RatingKey(kind)(r[j])
    ensures sort == Lowest ==> forall i, j :: 0 <= i < j < |r| ==> RatingKey(kind)(r[i]) <= RatingKey(kind)(r[j])
    ensures sort == Recent ==> forall i, j :: 0 <= i < j < |r| ==> r[i].createdAt >= r[j].createdAt
  {
    var r := SortBy(data, SortKey(sort, kind), SortDesc(sort));
    assert Sorted(r, SortKey(sort, kind), SortDesc(sort));
    r
  }

  /** The first row of a page: `(page - 1) * 10`. */
  function Offset(page: nat): (o: nat)
    requires page >= 1
    ensures o == (page - 1) * PageSize
  {
    Orders.PageStartIs(page - 1, PageSize);
    Orders.PageStart(page - 1, PageSize)
  }

  /** What the server returns for a page of `all` (the reviews of the
      product or seller, in the server's order). */
  function Fetch(all: seq<Review>, page: nat): seq<Review>
    requires page >= 1
  {
    all[Orders.Clamp(Offset(page), |all|)..Orders.Clamp(Offset(page) + PageSize, |all|)]
  }

  /** The list's state. */
  datatype ListState = ListState(reviews: seq<Review>, page: nat, hasMore: bool, sort: SortOption)

  const ListStart := ListState([], 1, true, Recent)

  /** `loadReviews(pageNum, reset)` as written: `hasMore` is computed from
      the list as it stood before the load, even when the load replaces it. */
  function LoadAsWritten(st: ListState, all: seq<Review>, kind: Kind, page: nat, reset: bool): (r: ListState)
    requires page >= 1
    ensures r.page == page && r.sort == st.sort
    ensures r.hasMore <==> |st.reviews| + |Fetch(all, page)| < |all|
  {
    var batch := SortReviews(Fetch(all, page), st.sort, kind);
    ListState(if reset then batch else st.reviews + batch, page,
              |st.reviews| + |batch| < |all|, st.sort)
  }

  /** `loadReviews` with `hasMore` computed from the list it leaves: a reset
      replaces the list with the sorted page, a later load appends to it. */
  function Load(st: ListState, all: seq<Review>, kind: Kind, page: nat, reset: bool): (r: ListState)
    requires page >= 1
    ensures r.page == page && r.sort == st.sort
    ensures reset ==> multiset(r.reviews) == multiset(Fetch(all, page))
    ensures !reset ==> (|st.reviews| <= |r.reviews| && r.reviews[..|st.reviews|] == st.reviews
                        && multiset(r.reviews[|st.reviews|..]) == multiset(Fetch(all, page)))
    ensures r.hasMore <==> |r.reviews| < |all|
  {
    var batch := SortReviews(Fetch(all, page), st.sort, kind);
    var list := if reset then batch else st.reviews + batch;
    assert !reset ==> list[..|st.reviews|] == st.reviews && list[|st.reviews|..] == batch;
    ListState(list, page, |list| < |all|, st.sort)
  }

  /** `handleSortChange`, followed by the reload it triggers: page 1, reset. */
  function ChangeSort(st: ListState, all: seq<Review>, kind: Kind, sort: SortOption): (r: ListState)
    ensures r.page == 1 && r.sort == sort
  {
    Load(st.(sort := sort, page := 1), all, kind, 1, true)
  }

  /** `handleLoadMore`: the next page, appended. */
  function LoadMore(st: ListState, all: seq<Review>, kind: Kind): (r: ListState)
    requires st.page >= 1
    ensures r.page == st.page + 1
  {
    Load(st, all, kind, st.page + 1, false)
  }

  /** After a sort change, the stale length of the old list decides whether
      more can be loaded: twenty reviews shown, the sort changed, ten shown
      again out of twenty-five, and the "load more" button disappears. */
  lemma SortChangeHidesMoreAsWritten(old20: seq<Review>, all: seq<Review>)
    requires |old20| == 20 && |all| == 25
    ensures var st := ListState(old20, 2, true, Recent);
            var r := LoadAsWritten(st.(sort := Highest, page := 1), all, ProductKind, 1, true);
            |r.reviews| == 10 && !r.hasMore
  {
    assert Offset(1) == 0;
  }

  /** The list after opening and `k` presses of "load more". */
  function Session(all: seq<Review>, kind: Kind, sort: SortOption, k: nat): (r: ListState)
    ensures r.page == k + 1
  {
    if k == 0 then Load(ListStart.(sort := sort), all, kind, 1, true)
    else LoadMore(Session(all, kind, sort, k - 1), all, kind)
  }

  /** Opening the list and loading `k` more pages shows the first `k + 1`
      pages of reviews, and "load more" stays available exactly while some
      review is not yet shown. */
  lemma {:induction false} SessionShowsPages(all: seq<Review>, kind: Kind, sort: SortOption, k: nat)
    ensures |Session(all, kind, sort, k).reviews| == Orders.Clamp(Offset(k + 2), |all|)
    ensures Session(all, kind, sort, k).hasMore <==> Offset(k + 2) < |all|
  {
    if k > 0 {
      SessionShowsPages(all, kind, sort, k - 1);
    }
  }

  /** What the bottom of the list shows. */
  datatype ListFooter = Spinner | NoReviews | LoadMoreButton | AllSeen

  function Footer(st: ListState, loading: bool): (f: ListFooter)
    ensures f == LoadMoreButton <==> !loading && st.hasMore && |st.reviews| > 0
    ensures f == AllSeen <==> !loading && !st.hasMore && |st.reviews| > 0
    ensures f == NoReviews <==> !loading && |st.reviews| == 0
  {
    if loading then Spinner
    else if |st.reviews| == 0 then NoReviews
    else if st.hasMore then LoadMoreButton
    else AllSeen
  }

  // ---------------------------------------------------------------- ReviewModal

  /** The review form: star ratings (0 = not rated), comments and the
      selected photo files. */
  datatype ReviewForm = ReviewForm(
    productRating: int,
    sellerRating: int,
    productComment: string,
    sellerComment: string,
    files: seq<string>)

  const MaxPhotos: nat := 3

  /** JavaScript `s.slice(0, end)`: a negative end counts from the back. */
  function SliceTo<T>(s: seq<T>, end: int): (r: seq<T>)
    ensures |r| <= |s| && r == s[..|r|]
    ensures 0 <= end ==> |r| == if end < |s| then end else |s|
  {
    if end >= |s| then s
    else if end >= 0 then s[..end]
    else if |s| + end >= 0 then s[..|s| + end]
    else []
  }

  /** `handleImageChange`: keeps only as many new files as free slots. */
  function AddPhotos(f: ReviewForm, picked: seq<string>): (r: ReviewForm)
    ensures r == f.(files := r.files)
    ensures |f.files| <= |r.files| <= |f.files| + |picked|
    ensures r.files == f.files + picked[..|r.files| - |f.files|]
    ensures |f.files| <= MaxPhotos ==>
              (|r.files| == if |f.files| + |picked| < MaxPhotos then |f.files| + |picked| else MaxPhotos)
  {
    var added := SliceTo(picked, MaxPhotos - |f.files|);
    f.(files := f.files + added)
  }

  /** `removeImage(i)`: every file but the `i`-th, in order. */
  function RemovePhoto(f: ReviewForm, i: nat): (r: ReviewForm)
    ensures r == f.(files := r.files)
    ensures i < |f.files| ==> (|r.files| == |f.files| - 1
                               && multiset(r.files) == multiset(f.files) - multiset{f.files[i]})
    ensures i >= |f.files| ==> r == f
  {
    if i < |f.files| then
      assert f.files == f.files[..i] + [f.files[i]] + f.files[i + 1..];
      f.(files := f.files[..i] + f.files[i + 1..])
    else f
  }

  /** Removing the photo just added restores the form. */
  lemma RemoveUndoesAdd(f: ReviewForm, file: string)
    requires |f.files| < MaxPhotos
    ensures RemovePhoto(AddPhotos(f, [file]), |f.files|) == f
  {
    var added := AddPhotos(f, [file]);
    assert added.files == f.files + [file];
    assert added.files[..|f.files|] + added.files[|f.files| + 1..] == f.files;
  }

  /** The payload handed to `reviewService.createReview`. */
  datatype ReviewPayload = ReviewPayload(
    productRating: Option<int>,
    sellerRating: Option<int>,
    productComment: Option<string>,
    sellerComment: Option<string>,
    images: Option<seq<string>>)

  /** The outcome of pressing "Envoyer". */
  datatype Submission = Refused(msg: string) | Sent(payload: ReviewPayload, error: Option<string>)

  const RateSomething := "Veuillez noter au moins le produit ou le vendeur."
  const SubmitFailed := "Une erreur est survenue."

  /** `x > 0 ? x : undefined`. */
  function PositiveOrNone(x: int): (r: Option<int>)
    ensures r.Some? <==> x > 0
    ensures r.Some? ==> r.value == x
  {
    if x > 0 then Some(x) else None
  }

  /** The submit button is disabled with both ratings at 0 (or while sending). */
  predicate SubmitDisabled(f: ReviewForm, submitting: bool) {
    submitting || (f.productRating == 0 && f.sellerRating == 0)
  }

  /** `handleSubmit`. `urls` are the uploaded photos' addresses, one per
      file; `failure` is the error the upload or the insert raised, if any,
      with its message (possibly empty). */
  function Submit(f: ReviewForm, urls: seq<string>, failure: Option<string>): (r: Submission)
    requires |urls| == |f.files|
    ensures r.Refused? <==> f.productRating == 0 && f.sellerRating == 0
    ensures r.Refused? ==> r.msg == RateSomething
    ensures r.Sent? ==> r.payload.productRating == PositiveOrNone(f.productRating)
                        && r.payload.sellerRating == PositiveOrNone(f.sellerRating)
    ensures r.Sent? ==> r.payload.productComment == EmptyToNull(Trim(f.productComment))
                        && r.payload.sellerComment == EmptyToNull(Trim(f.sellerComment))
    ensures r.Sent? ==> (r.payload.images.Some? <==> |f.files| > 0)
                        && (r.payload.images.Some? ==> r.payload.images.value == urls)
    ensures r.Sent? ==> (r.error.Some? <==> failure.Some?)
                        && (r.error.Some? ==> r.error.value != "")
  {
    if f.productRating == 0 && f.sellerRating == 0 then Refused(RateSomething)
    else
      var payload := ReviewPayload(
        PositiveOrNone(f.productRating), PositiveOrNone(f.sellerRating),
        EmptyToNull(Trim(f.productComment)), EmptyToNull(Trim(f.sellerComment)),
        if |urls| > 0 then Some(urls) else None);
      Sent(payload, if failure.Some? then Some(OrElse(failure, SubmitFailed)) else None)
  }

  /** The button is disabled exactly when pressing it would be refused
      (outside of a submission in progress), and a payload that goes out
      always carries at least one rating. */
  lemma SubmitNeedsARating(f: ReviewForm, urls: seq<string>, failure: Option<string>)
    requires |urls| == |f.files|
    requires f.productRating >= 0 && f.sellerRating >= 0
    ensures SubmitDisabled(f, false) <==> Submit(f, urls, failure).Refused?
    ensures Submit(f, urls, failure).Sent? ==>
              Submit(f, urls, failure).payload.productRating.Some?
              || Submit(f, urls, failure).payload.sellerRating.Some?
  {
  }

  /** The review the payload becomes once stored. */
  function Stored(p: ReviewPayload, id: string, buyerName: Option<string>, now: int): (r: Review)
    ensures r.productRating == p.productRating && r.sellerRating == p.sellerRating
  {
    Review(id, buyerName, now, p.productRating, p.sellerRating, p.productComment, p.sellerComment, p.images)
  }

  /** A stored review shows stars on the product side exactly when the buyer
      rated the product, on the seller side exactly when they rated the
      seller, a comment only when it has text, and photos only on the
      product side and only when some were chosen. */
  lemma SubmittedReviewShows(f: ReviewForm, urls: seq<string>, id: string, name: Option<string>, now: int)
    requires |urls| == |f.files|
    requires Submit(f, urls, None).Sent?
    ensures var r := Stored(Submit(f, urls, None).payload, id, name, now);
            && (HasReview(r, ProductKind) <==> f.productRating > 0)
            && (HasReview(r, SellerKind) <==> f.sellerRating > 0)
            && (CardComment(r, ProductKind).Some? ==> !Blank(CardComment(r, ProductKind).value))
            && (ShowImages(r, ProductKind) <==> |f.files| > 0)
            && !ShowImages(r, SellerKind)
  {
    var p := Submit(f, urls, None).payload;
    StoredShows(f, p, id, name, now);
  }

  lemma StoredShows(f: ReviewForm, p: ReviewPayload, id: string, name: Option<string>, now: int)
    requires p.productRating == PositiveOrNone(f.productRating)
    requires p.sellerRating == PositiveOrNone(f.sellerRating)
    requires p.productComment == EmptyToNull(Trim(f.productComment))
    requires p.images.Some? <==> |f.files| > 0
    requires p.images.Some? ==> |p.images.value| == |f.files|
    ensures var r := Stored(p, id, name, now);
            && (HasReview(r, ProductKind) <==> f.productRating > 0)
            && (HasReview(r, SellerKind) <==> f.sellerRating > 0)
            && (CardComment(r, ProductKind).Some? ==> !Blank(CardComment(r, ProductKind).value))
            && (ShowImages(r, ProductKind) <==> |f.files| > 0)
            && !ShowImages(r, SellerKind)
  {
    TrimNotBlank(f.productComment);
  }

  /** A card and the list's rating sort agree: with no negative rating the
      card shows stars exactly when its sort key is positive, and the stars
      show that key. */
  lemma CardAgreesWithSort(r: Review, kind: Kind)
    requires r.productRating.Some? ==> r.productRating.value >= 0
    requires r.sellerRating.Some? ==> r.sellerRating.value >= 0
    ensures HasReview(r, kind) <==> RatingKey(kind)(r) > 0.0
    ensures HasReview(r, kind) ==> CardRating(r, kind).value as real == RatingKey(kind)(r)
  {
  }
}
