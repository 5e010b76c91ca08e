/** The public store page (src/pages/store/StorePage.tsx) and the store
    service (src/services/storeService.ts): the seller's profile, products
    and delivered-sales figures, and the followed stores kept in the
    browser's storage. */
module Store {
  import opened Wrappers
  import opened Text
  import opened Entities
  import opened Sorting
  import OrderViews
  import Seller

  // ---- storeService --------------------------------------------------------

  /** The `zwa_followed_stores` entry: absent (or empty), a JSON list of
      seller ids, or text that does not parse as one. */
  datatype Storage = Missing | Stored(ids: seq<string>) | Unparsable

  /** `JSON.parse(localStorage.getItem(...) || '[]')`. */
  function Followed(st: Storage): (r: Result<seq<string>>)
    ensures r.Err? <==> st.Unparsable?
    ensures st.Missing? ==> r == Ok([])
  {
    match st
    case Missing => Ok([])
    case Stored(ids) => Ok(ids)
    case Unparsable => Err("Unexpected token")
  }

  /** followStore: the id is appended unless already there; the call
      fails only when the entry does not parse. */
  function Follow(st: Storage, seller: string): (r: (Storage, bool))
    ensures r.1 <==> !st.Unparsable?
    ensures st.Unparsable? ==> r.0 == st
    ensures st.Stored? && seller in st.ids ==> r.0 == st
    ensures r.1 && seller !in Followed(st).value ==> r.0 == Stored(Followed(st).value + [seller])
  {
    match Followed(st)
    case Err(_) => (st, false)
    case Ok(ids) => if seller in ids then (st, true) else (Stored(ids + [seller]), true)
  }

  function Other(seller: string): string -> bool {
    (id: string) => id != seller
  }

  /** unfollowStore: every occurrence of the id is removed. */
  function Unfollow(st: Storage, seller: string): (r: (Storage, bool))
    ensures r.1 <==> !st.Unparsable?
    ensures st.Unparsable? ==> r.0 == st
    ensures r.1 ==> r.0.Stored? && forall id :: id in r.0.ids <==> id in Followed(st).value && id != seller
  {
    match Followed(st)
    case Err(_) => (st, false)
    case Ok(ids) => (Stored(Filter(ids, Other(seller))), true)
  }

  /** isFollowing: membership, false when the entry does not parse. */
  predicate IsFollowing(st: Storage, seller: string) {
    Followed(st).Ok? && seller in Followed(st).value
  }

  /** After a follow the store is followed; after an unfollow it is not;
      the other stores keep their state either way. */
  lemma FollowUnfollowState(st: Storage, seller: string, other: string)
    requires !st.Unparsable?
    ensures IsFollowing(Follow(st, seller).0, seller)
    ensures !IsFollowing(Unfollow(st, seller).0, seller)
    ensures other != seller ==> (IsFollowing(Follow(st, seller).0, other) <==> IsFollowing(st, other))
    ensures other != seller ==> (IsFollowing(Unfollow(st, seller).0, other) <==> IsFollowing(st, other))
  {
  }

  /** Following twice is following once. */
  lemma FollowIdempotent(st: Storage, seller: string)
    ensures Follow(Follow(st, seller).0, seller).0 == Follow(st, seller).0
  {
  }

  /** Unfollowing a store just followed gives back the stored list. */
  lemma {:induction false} FollowThenUnfollow(ids: seq<string>, seller: string)
    requires seller !in ids
    ensures Unfollow(Follow(Stored(ids), seller).0, seller).0 == Stored(ids)
    decreases |ids|
  {
    FilterAllKept(ids, Other(seller));
    FilterAppend(ids, [seller], Other(seller));
  }

  predicate IsSeller(p: Profile) {
    p.role == Role.Seller
  }

  /** getFollowedStores: no query for an empty list; otherwise the seller
      profiles whose id is followed. */
  function FollowedStores(st: Storage, profiles: seq<Profile>, dbError: Option<string>): (r: Result<seq<Profile>>)
    ensures r.Ok? ==> Followed(st).Ok? && forall p :: p in r.value <==> p in profiles && IsSeller(p) && p.id in Followed(st).value
    ensures r.Ok? ==> Subsequence(r.value, profiles)
    ensures r.Ok? ==> KeepsCounts(r.value, profiles, (p: Profile) => IsSeller(p) && p.id in Followed(st).value)
    ensures Followed(st) == Ok([]) ==> r == Ok([])
    ensures r.Err? <==> st.Unparsable? || (Followed(st) != Ok([]) && dbError.Some?)
  {
    match Followed(st)
    case Err(m) => Err(m)
    case Ok(ids) =>
      if ids == [] then Ok([])
      else if dbError.Some? then Err(dbError.value)
      else Ok(Filter(profiles, (p: Profile) => IsSeller(p) && p.id in ids))
  }

  /** `.single()` on the seller profiles matching: the one row, or an
      error for none or several. */
  function Single(rows: seq<Profile>): (r: Option<Profile>)
    ensures r.Some? <==> |rows| == 1
    ensures r.Some? ==> r.value == rows[0]
  {
    if |rows| == 1 then Some(rows[0]) else None
  }

  /** getStoreById: the one seller profile with that id. */
  function StoreById(profiles: seq<Profile>, id: string): (r: Option<Profile>)
    ensures r.Some? ==> r.value in profiles && r.value.id == id && IsSeller(r.value)
    ensures r.Some? ==> forall p :: p in profiles && p.id == id && IsSeller(p) ==> p == r.value
  {
    Single(Filter(profiles, (p: Profile) => p.id == id && IsSeller(p)))
  }

  /** getStoreBySlug: the one seller profile with that slug. */
  function StoreBySlug(profiles: seq<Profile>, slug: string): (r: Option<Profile>)
    ensures r.Some? ==> r.value in profiles && r.value.storeSlug == Some(slug) && IsSeller(r.value)
    ensures r.Some? ==> forall p :: p in profiles && p.storeSlug == Some(slug) && IsSeller(p) ==> p == r.value
  {
    Single(Filter(profiles, (p: Profile) => p.storeSlug == Some(slug) && IsSeller(p)))
  }

  /** The two product filters. "bestsellers" is not implemented and lists
      every product. */
  datatype ProductFilter = AllProducts | Bestsellers

  function ProductCreated(p: Product): real { p.createdAt as real }

  /** getStoreProducts: the seller's products, most recent first. */
  function StoreProducts(products: seq<Product>, seller: string, filter: ProductFilter): (r: seq<Product>)
    ensures forall p :: p in r <==> p in products && p.sellerId == seller
    ensures Sorted(r, ProductCreated, true)
    ensures KeepsCounts(r, products, (p: Product) => p.sellerId == seller)
  {
    var own := Filter(products, Seller.OwnedBy(seller));
    var r := SortBy(own, ProductCreated, true);
    assert forall p :: p in r <==> p in own by {
      forall p ensures p in r <==> p in own {
        assert p in r <==> p in multiset(r);
      }
    }
    r
  }

  /** Both filters list the same products. */
  lemma BestsellersListsAll(products: seq<Product>, seller: string)
    ensures StoreProducts(products, seller, Bestsellers) == StoreProducts(products, seller, AllProducts)
  {
  }

  // ---- StorePage -----------------------------------------------------------

  /** The figures over the seller's delivered orders. */
  datatype FinancialStats = FinancialStats(totalRevenue: real, totalCommissions: real, grandTotal: real)

  function CommissionOf(o: Order): real { o.Commission() }

  /** The seller's share of an order: its amount less the commission. */
  function NetOf(o: Order): real { o.amount - o.Commission() }

  /** The figures as written: the turnover adds the commissions to the
      order amounts, which already include them. */
  function StatsAsWritten(rows: seq<Order>): (r: FinancialStats)
    ensures r.totalRevenue == Sum(rows, OrderViews.AmountOf) && r.totalCommissions == Sum(rows, CommissionOf)
    ensures r.grandTotal == Sum(rows, OrderViews.AmountOf) + Sum(rows, CommissionOf)
  {
    var revenue := Sum(rows, OrderViews.AmountOf);
    var commissions := Sum(rows, CommissionOf);
    FinancialStats(revenue, commissions, revenue + commissions)
  }

  /** The figures with the turnover being what buyers paid: the sellers'
      shares and the commissions together. */
  function Stats(rows: seq<Order>): (r: FinancialStats)
    ensures r.totalRevenue == Sum(rows, OrderViews.AmountOf) && r.totalCommissions == Sum(rows, CommissionOf)
    ensures r.grandTotal == Sum(rows, NetOf) + Sum(rows, CommissionOf)
  {
    SplitTurnover(rows);
    FinancialStats(Sum(rows, OrderViews.AmountOf), Sum(rows, CommissionOf), Sum(rows, OrderViews.AmountOf))
  }

  lemma {:induction false} SplitTurnover(rows: seq<Order>)
    ensures Sum(rows, OrderViews.AmountOf) == Sum(rows, NetOf) + Sum(rows, CommissionOf)
    decreases |rows|
  {
    if rows != [] {
      SplitTurnover(rows[1..]);
    }
  }

  lemma {:induction false} SumNonNegative(rows: seq<Order>)
    requires forall i :: 0 <= i < |rows| ==> rows[i].Commission() >= 0.0
    ensures Sum(rows, CommissionOf) >= 0.0
    decreases |rows|
  {
    if rows != [] {
      SumNonNegative(rows[1..]);
    }
  }

  lemma {:induction false} SumPositive(rows: seq<Order>, i: nat)
    requires forall j :: 0 <= j < |rows| ==> rows[j].Commission() >= 0.0
    requires i < |rows| && rows[i].Commission() > 0.0
    ensures Sum(rows, CommissionOf) > 0.0
    decreases |rows|
  {
    if i == 0 {
      SumNonNegative(rows[1..]);
    } else {
      SumPositive(rows[1..], i - 1);
    }
  }

  /** As written, one delivered order with a commission makes the turnover
      shown exceed what the buyers paid. */
  lemma TurnoverDoubleCountsAsWritten(rows: seq<Order>, i: nat)
    requires forall j :: 0 <= j < |rows| ==> rows[j].Commission() >= 0.0
    requires i < |rows| && rows[i].Commission() > 0.0
    ensures StatsAsWritten(rows).grandTotal > Sum(rows, OrderViews.AmountOf)
    ensures Stats(rows).grandTotal == Sum(rows, OrderViews.AmountOf)
  {
    SumPositive(rows, i);
  }

  /** The page: not found (an alert and a step back), or the store with
      its products and figures. */
  datatype StoreView = StoreNotFound | StoreShown(store: Profile, products: seq<Product>, following: bool,
                                                  stats: FinancialStats)

  const NotFoundAlert: string := "Boutique introuvable"

  /** The figures before the orders query answers. */
  const NoStats: FinancialStats := FinancialStats(0.0, 0.0, 0.0)

  /** What the page holds before fetchStoreData runs: the products, the
      follow state and the figures. fetchStoreData runs again whenever the
      filter changes, and each step it skips leaves its part as it was. */
  datatype PageState = PageState(products: seq<Product>, following: bool, stats: FinancialStats)

  /** The page's state on first render. */
  const FirstRender: PageState := PageState([], false, NoStats)

  /** fetchStoreData: the store, then its products when that query succeeds,
      the follow state for a signed-in visitor and, when the orders query
      returns rows (`orders`), the figures over the seller's delivered
      orders as the page computes them. A failed products query, a visitor
      who is not signed in and absent order data keep what `prev` held. */
  function LoadStore(profiles: seq<Profile>, products: Option<seq<Product>>, orders: Option<seq<Order>>,
                     sellerId: string, filter: ProductFilter, user: Option<string>, st: Storage,
                     prev: PageState): (r: StoreView)
    ensures r.StoreNotFound? <==> StoreById(profiles, sellerId).None?
    ensures r.StoreShown? ==> && r.store.id == sellerId
                              && (products.Some? ==> forall p :: p in r.products <==> p in products.value && p.sellerId == sellerId)
                              && (products.Some? ==> KeepsCounts(r.products, products.value, (p: Product) => p.sellerId == sellerId))
                              && (products.None? ==> r.products == prev.products)
                              && (user.Some? ==> (r.following <==> IsFollowing(st, sellerId)))
                              && (user.None? ==> r.following == prev.following)
    ensures r.StoreShown? && orders.None? ==> r.stats == prev.stats
    ensures r.StoreShown? && orders.Some? ==>
              && r.stats.totalRevenue == OrderViews.DeliveredRevenue(Filter(orders.value, Seller.SoldBy(sellerId)))
              && r.stats.totalCommissions == Sum(Seller.DeliveredSales(orders.value, sellerId), CommissionOf)
              && r.stats.grandTotal == r.stats.totalRevenue + r.stats.totalCommissions
  {
    match StoreById(profiles, sellerId)
    case None => StoreNotFound
    case Some(p) =>
      var stats := if orders.Some? then
                     Seller.DashboardMatchesOrdersList(orders.value, sellerId);
                     StatsAsWritten(Seller.DeliveredSales(orders.value, sellerId))
                   else prev.stats;
      StoreShown(p, if products.Some? then StoreProducts(products.value, sellerId, filter) else prev.products,
                 if user.Some? then IsFollowing(st, sellerId) else prev.following, stats)
  }

  /** The page's turnover exceeds what the buyers of the delivered orders
      paid (the corrected figure) by the commissions on them. */
  lemma LoadStoreAgainstCorrected(profiles: seq<Profile>, products: Option<seq<Product>>, orders: seq<Order>,
                                  sellerId: string, filter: ProductFilter, user: Option<string>, st: Storage,
                                  prev: PageState)
    requires StoreById(profiles, sellerId).Some?
    ensures var rows := Seller.DeliveredSales(orders, sellerId);
            var v := LoadStore(profiles, products, Some(orders), sellerId, filter, user, st, prev);
            v.StoreShown? && v.stats.grandTotal == Stats(rows).grandTotal + Stats(rows).totalCommissions
  {
    Seller.DashboardMatchesOrdersList(orders, sellerId);
  }

  /** A change of filter refetches the products; when that query fails the
      page keeps the products and figures the earlier load showed, where a
      first load shows none. */
  lemma RefilterKeepsEarlierLoad(profiles: seq<Profile>, products: seq<Product>, orders: seq<Order>,
                                 sellerId: string, filter: ProductFilter, filter2: ProductFilter,
                                 user: Option<string>, st: Storage)
    requires StoreById(profiles, sellerId).Some?
    ensures var first := LoadStore(profiles, Some(products), Some(orders), sellerId, filter, user, st, FirstRender);
            var again := LoadStore(profiles, None, None, sellerId, filter2, user, st,
                                   PageState(first.products, first.following, first.stats));
            again.products == first.products && again.stats == first.stats
            && LoadStore(profiles, None, None, sellerId, filter2, user, st, FirstRender).products == []
  {
  }

  /** The turnover section: for the seller only, when the turnover is
      positive. */
  predicate RevenueShown(user: Option<string>, sellerId: string, stats: FinancialStats) {
    user == Some(sellerId) && stats.grandTotal > 0.0
  }

  /** Visitors other than the seller never see the figures. */
  lemma RevenueOwnerOnly(user: Option<string>, sellerId: string, stats: FinancialStats)
    ensures RevenueShown(user, sellerId, stats) ==> user == Some(sellerId)
    ensures user == Some(sellerId) && stats.grandTotal > 0.0 ==> RevenueShown(user, sellerId, stats)
  {
  }

  /** handleFollow: a signed-out visitor gets an alert; otherwise the
      follow state flips and the storage follows it. */
  datatype FollowOutcome = SignInFirst | Flipped(following: bool, st: Storage)

  const SignInAlert: string := "Vous devez être connecté pour suivre une boutique"

  function HandleFollow(user: Option<string>, sellerId: string, following: bool, st: Storage): (r: FollowOutcome)
    ensures user.None? <==> r == SignInFirst
    ensures r.Flipped? ==> r.following == !following
    ensures r.Flipped? && !st.Unparsable? ==> (IsFollowing(r.st, sellerId) <==> r.following)
  {
    if user.None? then SignInFirst
    else if following then Flipped(false, Unfollow(st, sellerId).0)
    else Flipped(true, Follow(st, sellerId).0)
  }

  /** The month abbreviations of the "member since" figure. */
  const Months: seq<string> := ["Jan", "Fév", "Mar", "Avr", "Mai", "Juin", "Juil", "Août", "Sep", "Oct", "Nov", "Déc"]

  /** getMemberSince: the abbreviated month, a space and the year. The
      month is 0-based, as `getMonth` gives it. The text splits at its first
      space into the month's abbreviation and the year's digits. */
  function MemberSince(month: nat, year: int): (s: string)
    requires month < 12
    ensures SpaceAt(s) == |Months[month]| < |s|
    ensures s[..SpaceAt(s)] == Months[month] && s[SpaceAt(s) + 1..] == IntToString(year)
  {
    MonthsHaveNoSpace(month);
    SpaceAfterWord(Months[month], IntToString(year));
    Months[month] + " " + IntToString(year)
  }

  predicate NoSpace(w: string) {
    forall k :: 0 <= k < |w| ==> w[k] != ' '
  }

  lemma MonthsHaveNoSpace(m: nat)
    requires m < 12
    ensures NoSpace(Months[m])
  {
  }

  lemma MonthsDistinct(a: nat, b: nat)
    requires a < 12 && b < 12 && Months[a] == Months[b]
    ensures a == b
  {
  }

  /** The index of the first space, the length when there is none. */
  function SpaceAt(s: string): (k: nat)
    ensures k <= |s|
  {
    if s == [] || s[0] == ' ' then 0 else 1 + SpaceAt(s[1..])
  }

  lemma {:induction false} SpaceAfterWord(a: string, t: string)
    requires NoSpace(a)
    ensures SpaceAt(a + " " + t) == |a|
    decreases |a|
  {
    if a != [] {
      assert (a + " " + t)[1..] == a[1..] + " " + t;
      SpaceAfterWord(a[1..], t);
    }
  }

  /** A word without spaces, a space and a tail: the word and the tail are
      read back from the text. */
  lemma SplitAtSpace(a: string, t1: string, b: string, t2: string)
    requires NoSpace(a) && NoSpace(b)
    requires a + " " + t1 == b + " " + t2
    ensures a == b && t1 == t2
  {
    var s := a + " " + t1;
    SpaceAfterWord(a, t1);
    SpaceAfterWord(b, t2);
    assert a == s[..|a|] == b;
    assert t1 == s[|a| + 1..] == t2;
  }

  /** Two stores show the same "member since" text only when they joined
      in the same month of the same year. */
  lemma MemberSinceInjective(m1: nat, y1: int, m2: nat, y2: int)
    requires m1 < 12 && m2 < 12
    requires MemberSince(m1, y1) == MemberSince(m2, y2)
    ensures m1 == m2 && y1 == y2
  {
    MonthsHaveNoSpace(m1);
    MonthsHaveNoSpace(m2);
    SplitAtSpace(Months[m1], IntToString(y1), Months[m2], IntToString(y2));
    MonthsDistinct(m1, m2);
    ParseIntRoundTrip(y1, "");
    ParseIntRoundTrip(y2, "");
    assert IntToString(y1) + "" == IntToString(y1);
    assert IntToString(y2) + "" == IntToString(y2);
  }
}
