/** The order service (src/services/orderService.ts) over an abstract
    database, and the paging rule of src/hooks/useOrders.ts. Every query is
    a function of the database state; a write the service checks for errors
    takes a fault flag saying whether the database refused it. */
module Orders {
  import opened Wrappers
  import opened Text
  import opened Sorting
  import opened Entities
  import opened Transactions
  import Invoices

  /** The tables the service reads and writes. The ledger holds the
      transaction payloads in insertion order. */
  datatype Db = Db(
    orders: map<string, Order>,
    products: map<string, Product>,
    profiles: map<string, Profile>,
    ledger: seq<Transaction>)

  /** The state after a service call and the error it reported, if any. */
  datatype Outcome = Outcome(db: Db, error: Option<string>)

  /** What the database answers when `.single()` finds no row. */
  const NoRowError := "JSON object requested, multiple (or no) rows returned"

  /** The error of a write the database refused. */
  const WriteError := "write refused"

  // ---- createOrder ----------------------------------------------------------

  datatype NewOrder = NewOrder(
    buyerId: string,
    sellerId: string,
    productId: string,
    affiliateId: Option<string>,
    amount: real,
    quantity: int,
    notes: Option<string>,
    buyerPhone: Option<string>,
    deliveryLocation: Option<string>,
    expiresAt: Option<int>,
    shippingTimeline: Option<string>)

  /** The product row a query by id returns, if any. */
  function ProductOf(db: Db, id: string): Option<Product> {
    if id in db.products then Some(db.products[id]) else None
  }

  /** The stock the service checks: `None` when the product is missing or
      its stock is not tracked. */
  function TrackedStock(db: Db, productId: string): Option<int> {
    match ProductOf(db, productId)
    case None => None
    case Some(p) => p.stock
  }

  /** `product?.default_commission || 0`. */
  function RateOf(db: Db, productId: string): real {
    match ProductOf(db, productId)
    case None => 0.0
    case Some(p) => OrZero(p.defaultCommission)
  }

  /** The commission an order carries: `amount * rate / 100`. */
  function CommissionFor(amount: real, rate: real): real {
    amount * rate / 100.0
  }

  function StockError(stock: int): string {
    if stock == 0 then "Produit en rupture de stock."
    else "Stock insuffisant. Seulement " + IntToString(stock) + " unit\U{00E9}(s) disponible(s)."
  }

  /** createOrder: refused when the tracked stock is below the quantity;
      otherwise a pending order carrying `amount * rate / 100` as commission
      is inserted. `newId` and `now` are the id and creation time the
      database assigns; `insertError` is the error the insert reports, in
      which case nothing is stored and that error is returned. */
  function CreateOrder(db: Db, p: NewOrder, newId: string, now: int, insertError: Option<string>): (r: Result<(Db, Order)>)
    requires newId !in db.orders
    ensures r.Err? <==> (TrackedStock(db, p.productId).Some? && p.quantity > TrackedStock(db, p.productId).value)
                        || insertError.Some?
    ensures TrackedStock(db, p.productId).Some? && p.quantity > TrackedStock(db, p.productId).value ==>
              r == Err(StockError(TrackedStock(db, p.productId).value))
    ensures r.Err? && insertError.Some? && !(TrackedStock(db, p.productId).Some? && p.quantity > TrackedStock(db, p.productId).value) ==>
              r.msg == insertError.value
    ensures r.Ok? ==>
              var (db', o) := r.value;
              db' == db.(orders := db.orders[newId := o])
              && o.id == newId && o.status == Pending && o.createdAt == now
              && o.buyerId == p.buyerId && o.sellerId == p.sellerId && o.productId == p.productId
              && o.amount == p.amount && o.quantity == Some(p.quantity)
              && o.commissionAmount == Some(CommissionFor(p.amount, RateOf(db, p.productId)))
              && o.shippingTimeline == Some(OrElse(p.shippingTimeline, "7 jours"))
              && o.affiliateId == p.affiliateId && o.notes == p.notes && o.expiresAt == p.expiresAt
              && o.buyerPhone == p.buyerPhone && o.deliveryLocation == p.deliveryLocation
              && o.otp.None? && o.shippedAt.None?
  {
    var stock := TrackedStock(db, p.productId);
    if stock.Some? && p.quantity > stock.value then Err(StockError(stock.value))
    else if insertError.Some? then Err(insertError.value)
    else
      var o := Order(newId, p.buyerId, p.sellerId, p.productId, p.affiliateId, p.amount,
                     Some(p.quantity), Some(CommissionFor(p.amount, RateOf(db, p.productId))),
                     Pending, None, now, p.expiresAt, p.notes,
                     Some(OrElse(p.shippingTimeline, "7 jours")),
                     None, None, None, None, None, None, None,
                     p.buyerPhone, p.deliveryLocation, None);
      Ok((db.(orders := db.orders[newId := o]), o))
  }

  /** Untracked stock never blocks an order. */
  lemma UntrackedStockNeverBlocks(db: Db, p: NewOrder, newId: string, now: int)
    requires newId !in db.orders
    requires p.productId !in db.products || db.products[p.productId].stock.None?
    ensures CreateOrder(db, p, newId, now, None).Ok?
  {
  }

  // ---- getPaginatedOrders and useOrders --------------------------------------

  datatype OrderRole = AsBuyer | AsSeller | AsAffiliate

  /** The party column a role is matched against. */
  predicate IsParty(o: Order, userId: string, role: OrderRole) {
    match role
    case AsSeller => o.sellerId == userId
    case AsAffiliate => o.affiliateId == Some(userId)
    case AsBuyer => o.buyerId == userId
  }

  /** The status filter: an explicit status other than 'all' is matched
      exactly; otherwise affiliates see every status except cancelled. */
  predicate StatusSelected(o: Order, role: OrderRole, status: Option<string>) {
    if Truthy(status) && status.value != "all" then o.status.Name() == status.value
    else role == AsAffiliate ==> o.status.Name() in ["pending", "paid", "shipped", "delivered"]
  }

  /** PostgREST `ilike '%term%'`, for a term without wildcards. */
  predicate ILike(field: string, term: string) {
    Includes(Lower(field), Lower(term))
  }

  predicate SearchSelected(o: Order, search: Option<string>) {
    Truthy(search) ==> ILike(o.id, search.value) || (o.notes.Some? && ILike(o.notes.value, search.value))
  }

  predicate Selected(o: Order, userId: string, role: OrderRole, status: Option<string>, search: Option<string>) {
    IsParty(o, userId, role) && StatusSelected(o, role, status) && SearchSelected(o, search)
  }

  function CreatedKey(o: Order): real {
    o.createdAt as real
  }

  /** Every order the query matches, newest first. */
  function Matching(rows: seq<Order>, userId: string, role: OrderRole,
                    status: Option<string>, search: Option<string>): (r: seq<Order>)
    ensures forall o :: o in r <==> o in rows && Selected(o, userId, role, status, search)
    ensures Sorted(r, CreatedKey, true)
    ensures KeepsCounts(r, rows, (o: Order) => Selected(o, userId, role, status, search))
  {
    var kept := Filter(rows, (o: Order) => Selected(o, userId, role, status, search));
    var r := SortBy(kept, CreatedKey, true);
    assert forall o :: o in r <==> o in kept by {
      forall o
        ensures o in r <==> o in kept
      {
        assert o in r <==> o in multiset(r);
        assert o in kept <==> o in multiset(kept);
      }
    }
    r
  }

  /** `n` moved into `0 ..= hi`. */
  function Clamp(n: int, hi: nat): (r: nat)
    ensures r <= hi
    ensures 0 <= n <= hi ==> r == n
    ensures n > hi ==> r == hi
    ensures n < 0 ==> r == 0
  {
    if n < 0 then 0 else if n > hi then hi else n
  }

  /** PostgREST `range(from, to)`: rows `from` to `to` inclusive, as far as they exist. */
  function Range<T>(s: seq<T>, from: nat, to: int): (r: seq<T>)
    ensures from <= to + 1 ==> r == s[Clamp(from, |s|)..Clamp(to + 1, |s|)]
    ensures to < from ==> r == []
  {
    if from >= |s| || to < from then [] else s[from..Clamp(to + 1, |s|)]
  }

  /** One page of the order list and the exact number of matching orders. */
  datatype OrderPage = OrderPage(rows: seq<Order>, count: nat)

  /** getPaginatedOrders: rows `page*limit` to `page*limit + limit - 1` of the
      matching orders, newest first, with the total count. */
  function PaginatedOrders(rows: seq<Order>, userId: string, role: OrderRole, status: Option<string>,
                           search: Option<string>, page: nat, limit: nat): (r: OrderPage)
    requires limit >= 1
    ensures |r.rows| <= limit
    ensures forall o :: o in r.rows ==> o in rows && Selected(o, userId, role, status, search)
    ensures var m := Matching(rows, userId, role, status, search);
            var from := page * limit;
            r.count == |m| && r.rows == m[Clamp(from, |m|)..Clamp(from + limit, |m|)]
  {
    var m := Matching(rows, userId, role, status, search);
    var from := page * limit;
    var page := Range(m, from, from + limit - 1);
    PageFacts(m, from, limit);
    OrderPage(page, |m|)
  }

  /** The rows a page asks for: at most `limit` of them, all from the list. */
  lemma PageFacts<T>(m: seq<T>, from: nat, limit: nat)
    requires limit >= 1
    ensures Range(m, from, from + limit - 1) == m[Clamp(from, |m|)..Clamp(from + limit, |m|)]
    ensures |Range(m, from, from + limit - 1)| <= limit
    ensures forall x :: x in Range(m, from, from + limit - 1) ==> x in m
  {
    var a, b := Clamp(from, |m|), Clamp(from + limit, |m|);
    forall x | x in m[a..b]
      ensures x in m
    {
      var i :| a <= i < b && m[i] == x;
    }
  }

  /** Affiliates never see a cancelled order unless they ask for that status. */
  lemma AffiliatesHideCancelled(rows: seq<Order>, userId: string, status: Option<string>,
                                search: Option<string>, page: nat, limit: nat)
    requires limit >= 1 && !(Truthy(status) && status.value != "all")
    ensures forall o :: o in PaginatedOrders(rows, userId, AsAffiliate, status, search, page, limit).rows
              ==> o.status.Name() != "cancelled"
  {
  }

  /** The first row of page `i`, counted page by page. */
  function PageStart(i: nat, limit: nat): nat {
    if i == 0 then 0 else PageStart(i - 1, limit) + limit
  }

  lemma {:induction false} PageStartIs(i: nat, limit: nat)
    ensures PageStart(i, limit) == i * limit
  {
    if i > 0 {
      PageStartIs(i - 1, limit);
    }
  }

  /** Page `i` of `m` holds rows `i*limit` to `i*limit + limit - 1`. */
  predicate PagesOf(pages: seq<OrderPage>, m: seq<Order>, limit: nat) {
    forall i :: 0 <= i < |pages| ==>
      pages[i].rows == m[Clamp(PageStart(i, limit), |m|)..Clamp(PageStart(i, limit) + limit, |m|)]
  }

  lemma PagesOfPrefix(pages: seq<OrderPage>, m: seq<Order>, limit: nat, k: nat)
    requires PagesOf(pages, m, limit) && k <= |pages|
    ensures PagesOf(pages[..k], m, limit)
  {
    forall i | 0 <= i < k
      ensures pages[..k][i].rows == m[Clamp(PageStart(i, limit), |m|)..Clamp(PageStart(i, limit) + limit, |m|)]
    {
      assert pages[..k][i] == pages[i];
    }
  }

  lemma PageRows(pages: seq<OrderPage>, m: seq<Order>, limit: nat, i: nat)
    requires PagesOf(pages, m, limit) && i < |pages|
    ensures pages[i].rows == m[Clamp(PageStart(i, limit), |m|)..Clamp(PageStart(i, limit) + limit, |m|)]
  {
  }

  /** The last page continues the pages before it. */
  lemma PagesConcatNext(pages: seq<OrderPage>, m: seq<Order>, from: nat, limit: nat)
    requires |pages| > 0
    requires pages[|pages| - 1].rows == m[Clamp(from, |m|)..Clamp(from + limit, |m|)]
    requires Loaded(pages[..|pages| - 1]) == m[..Clamp(from, |m|)]
    ensures Loaded(pages) == m[..Clamp(from + limit, |m|)]
  {
    var k := |pages|;
    PageJoin(m, from, limit, Loaded(pages[..k - 1]), pages[k - 1].rows, Loaded(pages));
  }

  /** A prefix followed by the page after it is a longer prefix. */
  lemma PageJoin<T>(m: seq<T>, from: nat, limit: nat, before: seq<T>, page: seq<T>, whole: seq<T>)
    requires before == m[..Clamp(from, |m|)] && page == m[Clamp(from, |m|)..Clamp(from + limit, |m|)]
    requires whole == before + page
    ensures whole == m[..Clamp(from + limit, |m|)]
  {
    SliceJoin(m, from, limit);
  }

  /** Consecutive pages laid end to end are a prefix of the list they page. */
  lemma {:induction false} PagesConcat(pages: seq<OrderPage>, m: seq<Order>, limit: nat)
    requires PagesOf(pages, m, limit)
    ensures Loaded(pages) == m[..Clamp(PageStart(|pages|, limit), |m|)]
    decreases |pages|
  {
    if |pages| > 0 {
      var k := |pages|;
      PagesOfPrefix(pages, m, limit, k - 1);
      PagesConcat(pages[..k - 1], m, limit);
      PageRows(pages, m, limit, k - 1);
      PagesConcatNext(pages, m, PageStart(k - 1, limit), limit);
    }
  }

  /** The pages `0 .. k-1` laid end to end are the first `k * limit`
      matching orders: paging neither skips nor repeats an order. */
  lemma PagesTile(rows: seq<Order>, userId: string, role: OrderRole,
                  status: Option<string>, search: Option<string>, limit: nat, k: nat)
    requires limit >= 1
    ensures var m := Matching(rows, userId, role, status, search);
            Loaded(PagesUpTo(rows, userId, role, status, search, limit, k)) == m[..Clamp(k * limit, |m|)]
  {
    var m := Matching(rows, userId, role, status, search);
    PagesConcat(PagesUpTo(rows, userId, role, status, search, limit, k), m, limit);
    PageStartIs(k, limit);
  }

  lemma SliceJoin<T>(m: seq<T>, from: nat, limit: nat)
    ensures m[..Clamp(from, |m|)] + m[Clamp(from, |m|)..Clamp(from + limit, |m|)]
            == m[..Clamp(from + limit, |m|)]
  {
  }

  /** The first `k` pages, as the infinite query loads them. */
  function PagesUpTo(rows: seq<Order>, userId: string, role: OrderRole, status: Option<string>,
                     search: Option<string>, limit: nat, k: nat): (r: seq<OrderPage>)
    requires limit >= 1
    ensures |r| == k
    ensures PagesOf(r, Matching(rows, userId, role, status, search), limit)
  {
    var r := seq(k, i requires 0 <= i => PaginatedOrders(rows, userId, role, status, search, i, limit));
    assert PagesOf(r, Matching(rows, userId, role, status, search), limit) by {
      forall i | 0 <= i < k {
        PageIsSlice(rows, userId, role, status, search, i, limit);
      }
    }
    r
  }

  lemma PageIsSlice(rows: seq<Order>, userId: string, role: OrderRole, status: Option<string>,
                    search: Option<string>, i: nat, limit: nat)
    requires limit >= 1
    ensures var m := Matching(rows, userId, role, status, search);
            PaginatedOrders(rows, userId, role, status, search, i, limit).rows
              == m[Clamp(PageStart(i, limit), |m|)..Clamp(PageStart(i, limit) + limit, |m|)]
  {
    var m := Matching(rows, userId, role, status, search);
    var p := PaginatedOrders(rows, userId, role, status, search, i, limit);
    assert p.rows == m[Clamp(i * limit, |m|)..Clamp(i * limit + limit, |m|)];
    PageStartIs(i, limit);
  }

  /** The orders of the loaded pages, in page order. */
  function Loaded(pages: seq<OrderPage>): seq<Order> {
    if pages == [] then [] else Loaded(pages[..|pages| - 1]) + pages[|pages| - 1].rows
  }

  lemma LoadedAppend(pages: seq<OrderPage>, p: OrderPage)
    ensures Loaded(pages + [p]) == Loaded(pages) + p.rows
  {
    assert (pages + [p])[..|pages|] == pages;
  }

  /** Number of orders loaded so far (the `reduce` of getNextPageParam). */
  function LoadedCount(pages: seq<OrderPage>): (n: nat)
    ensures n == |Loaded(pages)|
  {
    if pages == [] then 0 else LoadedCount(pages[..|pages| - 1]) + |pages[|pages| - 1].rows|
  }

  const OrdersPageSize: nat := 10

  /** The query function of useOrders: no user means an empty page; a
      missing count is 0. `fetch` is the service's answer for a user. */
  function FetchOrdersPage(userId: Option<string>, fetch: string -> Result<(seq<Order>, Option<nat>)>): (r: Result<OrderPage>)
    ensures !Truthy(userId) ==> r == Ok(OrderPage([], 0))
    ensures Truthy(userId) && fetch(userId.value).Ok? ==>
              r == Ok(OrderPage(fetch(userId.value).value.0, fetch(userId.value).value.1.GetOr(0)))
    ensures Truthy(userId) && fetch(userId.value).Err? ==> r.Err?
  {
    if !Truthy(userId) then Ok(OrderPage([], 0))
    else
      var (rows, count) :- fetch(userId.value);
      Ok(OrderPage(rows, count.GetOr(0)))
  }

  /** getNextPageParam: the index of the next page while fewer orders than
      the last reported count are loaded, and no further page otherwise. */
  function NextPageParam(pages: seq<OrderPage>): (r: Option<nat>)
    requires pages != []
    ensures r.Some? <==> |Loaded(pages)| < pages[|pages| - 1].count
    ensures r.Some? ==> r.value == |pages|
  {
    if LoadedCount(pages) < pages[|pages| - 1].count then Some(|pages|) else None
  }

  /** Loading page after page, the infinite query asks for another page
      exactly while fewer than `k * 10` orders... that is, while the pages
      loaded so far are full and more orders match. */
  lemma NextPageIffMore(rows: seq<Order>, userId: string, role: OrderRole,
                        status: Option<string>, search: Option<string>, k: nat)
    requires k >= 1
    ensures var pages := PagesUpTo(rows, userId, role, status, search, OrdersPageSize, k);
            var m := Matching(rows, userId, role, status, search);
            NextPageParam(pages).Some? <==> k * OrdersPageSize < |m|
  {
    PagesTile(rows, userId, role, status, search, OrdersPageSize, k);
  }

  // ---- getOrderCounts --------------------------------------------------------

  /** The counters object of getOrderCounts. */
  datatype Counts = Counts(all: int, pending: int, paid: int, shipped: int, delivered: int,
                           cancelled: int, totalRevenue: real)

  /** Orders whose amount counts as revenue. */
  predicate EarnsRevenue(o: Order) {
    o.status.Name() in ["delivered", "paid", "shipped"]
  }

  /** One step of the `forEach`: the counter named by the status (any key of
      the counters object, including 'all' and 'totalRevenue') goes up by one,
      then revenue grows by the amount of a paid, shipped or delivered order. */
  function Tally(c: Counts, o: Order): Counts {
    var name := o.status.Name();
    var c1 :=
      if name == "all" then c.(all := c.all + 1)
      else if name == "pending" then c.(pending := c.pending + 1)
      else if name == "paid" then c.(paid := c.paid + 1)
      else if name == "shipped" then c.(shipped := c.shipped + 1)
      else if name == "delivered" then c.(delivered := c.delivered + 1)
      else if name == "cancelled" then c.(cancelled := c.cancelled + 1)
      else if name == "totalRevenue" then c.(totalRevenue := c.totalRevenue + 1.0)
      else c;
    if EarnsRevenue(o) then c1.(totalRevenue := c1.totalRevenue + o.amount) else c1
  }

  function TallyAll(c: Counts, rows: seq<Order>): Counts
    decreases |rows|
  {
    if rows == [] then c else TallyAll(Tally(c, rows[0]), rows[1..])
  }

  function RoleOfText(role: string): OrderRole {
    if role == "seller" then AsSeller else if role == "affiliate" then AsAffiliate else AsBuyer
  }

  /** getOrderCounts: `None` when the query fails; otherwise the counters
      over the user's orders, with 'all' starting at their number. */
  function OrderCounts(rows: seq<Order>, userId: string, role: string, queryFails: bool): (r: Option<Counts>)
    ensures r.None? <==> queryFails
  {
    if queryFails then None
    else
      var mine := Filter(rows, (o: Order) => IsParty(o, userId, RoleOfText(role)));
      Some(TallyAll(Counts(|mine|, 0, 0, 0, 0, 0, 0.0), mine))
  }

  /** No status spells a key of the counters object other than the five statuses. */
  predicate NoStrayKeys(rows: seq<Order>) {
    forall i :: 0 <= i < |rows| ==> rows[i].status.Name() != "all" && rows[i].status.Name() != "totalRevenue"
  }

  function RevenueOf(o: Order): real {
    if EarnsRevenue(o) then o.amount else 0.0
  }

  function HasStatus(name: string): Order -> bool {
    (o: Order) => o.status.Name() == name
  }

  /** The counters are the reference counts: each status counter counts the
      orders with that status and revenue sums the paid, shipped and
      delivered amounts. */
  lemma {:induction false} TallyAllCounts(c: Counts, rows: seq<Order>)
    requires NoStrayKeys(rows)
    ensures var t := TallyAll(c, rows);
            t.all == c.all
            && t.pending == c.pending + Count(rows, HasStatus("pending"))
            && t.paid == c.paid + Count(rows, HasStatus("paid"))
            && t.shipped == c.shipped + Count(rows, HasStatus("shipped"))
            && t.delivered == c.delivered + Count(rows, HasStatus("delivered"))
            && t.cancelled == c.cancelled + Count(rows, HasStatus("cancelled"))
            && t.totalRevenue == c.totalRevenue + Sum(rows, RevenueOf)
    decreases |rows|
  {
    if rows != [] {
      assert NoStrayKeys(rows[1..]) by {
        forall i | 0 <= i < |rows[1..]|
          ensures rows[1..][i].status.Name() != "all" && rows[1..][i].status.Name() != "totalRevenue"
        {
          assert rows[1..][i] == rows[i + 1];
        }
      }
      TallyAllCounts(Tally(c, rows[0]), rows[1..]);
    }
  }

  /** Each order falls under at most one status counter. */
  lemma {:induction false} StatusCountsBounded(rows: seq<Order>)
    ensures Count(rows, HasStatus("pending")) + Count(rows, HasStatus("paid"))
            + Count(rows, HasStatus("shipped")) + Count(rows, HasStatus("delivered"))
            + Count(rows, HasStatus("cancelled")) <= |rows|
    decreases |rows|
  {
    if rows != [] {
      StatusCountsBounded(rows[1..]);
    }
  }

  /** getOrderCounts as promised: 'all' is the number of the user's orders,
      each status counter counts its orders, the five together never exceed
      'all', and revenue sums paid, shipped and delivered amounts. */
  lemma OrderCountsMeaning(rows: seq<Order>, userId: string, role: string)
    requires NoStrayKeys(rows)
    ensures var mine := Filter(rows, (o: Order) => IsParty(o, userId, RoleOfText(role)));
            var c := OrderCounts(rows, userId, role, false).value;
            c.all == |mine|
            && c.pending == Count(mine, HasStatus("pending"))
            && c.paid == Count(mine, HasStatus("paid"))
            && c.shipped == Count(mine, HasStatus("shipped"))
            && c.delivered == Count(mine, HasStatus("delivered"))
            && c.cancelled == Count(mine, HasStatus("cancelled"))
            && c.pending + c.paid + c.shipped + c.delivered + c.cancelled <= c.all
            && c.totalRevenue == Sum(mine, RevenueOf)
  {
    var mine := Filter(rows, (o: Order) => IsParty(o, userId, RoleOfText(role)));
    assert NoStrayKeys(mine) by {
      forall i | 0 <= i < |mine|
        ensures mine[i].status.Name() != "all" && mine[i].status.Name() != "totalRevenue"
      {
        assert mine[i] in rows;
      }
    }
    TallyAllCounts(Counts(|mine|, 0, 0, 0, 0, 0, 0.0), mine);
    StatusCountsBounded(mine);
  }

  // ---- updateOrder -----------------------------------------------------------

  datatype OrderEdit = OrderEdit(amount: real, quantity: int, notes: Option<string>,
                                 expiresAt: Option<int>, shippingTimeline: Option<string>)

  /** updateOrder: the commission is recomputed from the product's current
      rate, or set to 0 when the first read of the order failed
      (`orderRead` false). Absent optional fields are not written. */
  function UpdateOrder(db: Db, id: string, e: OrderEdit, orderRead: bool): (r: Result<(Db, Order)>)
    ensures id !in db.orders <==> r.Err?
    ensures r.Ok? ==>
              var o := r.value.1;
              r.value.0 == db.(orders := db.orders[id := o])
              && o.amount == e.amount && o.quantity == Some(e.quantity)
              && o.commissionAmount == Some(if orderRead
                                            then CommissionFor(e.amount, RateOf(db, db.orders[id].productId))
                                            else 0.0)
              && o.status == db.orders[id].status
              && o.notes == (if e.notes.Some? then e.notes else db.orders[id].notes)
              && o.expiresAt == (if e.expiresAt.Some? then e.expiresAt else db.orders[id].expiresAt)
              && o.shippingTimeline == (if e.shippingTimeline.Some? then e.shippingTimeline
                                        else db.orders[id].shippingTimeline)
              && o.id == db.orders[id].id && o.productId == db.orders[id].productId
              && o.buyerId == db.orders[id].buyerId && o.sellerId == db.orders[id].sellerId
              && o.affiliateId == db.orders[id].affiliateId && o.otp == db.orders[id].otp
  {
    if id !in db.orders then Err(NoRowError)
    else
      var prev := db.orders[id];
      var commission := if orderRead then CommissionFor(e.amount, RateOf(db, prev.productId)) else 0.0;
      var o := prev.(amount := e.amount, quantity := Some(e.quantity),
                    commissionAmount := Some(commission),
                    notes := if e.notes.Some? then e.notes else prev.notes,
                    expiresAt := if e.expiresAt.Some? then e.expiresAt else prev.expiresAt,
                    shippingTimeline := if e.shippingTimeline.Some? then e.shippingTimeline
                                        else prev.shippingTimeline);
      Ok((db.(orders := db.orders[id := o]), o))
  }

  // ---- shipOrder ---------------------------------------------------------------

  /** `Math.floor(100000 + random * 900000)`. */
  function OtpNumber(random: real): (n: int)
    requires 0.0 <= random < 1.0
    ensures 100000 <= n <= 999999
  {
    (100000.0 + random * 900000.0).Floor
  }

  /** The generated delivery code: six decimal digits. */
  function OtpText(random: real): (r: string)
    requires 0.0 <= random < 1.0
    ensures |r| == 6 && AllDigits(r) && r[0] != '0'
  {
    var n := OtpNumber(random);
    assert Pow10(5) == 100000 by {
      assert Pow10(1) == 10 && Pow10(2) == 100 && Pow10(3) == 1000 && Pow10(4) == 10000;
    }
    assert Pow10(6) == 1000000;
    NatToStringLength(n, 6);
    NatToString(n)
  }

  datatype Shipment = Shipment(db: Db, error: Option<string>, otp: string)

  /** shipOrder: stores a fresh six-digit code, marks the order shipped and
      stamps the shipping time. `random` is the value `Math.random()`
      returned and `now` the clock's time. */
  function ShipOrder(db: Db, id: string, random: real, now: int): (r: Shipment)
    requires 0.0 <= random < 1.0
    ensures r.otp == OtpText(random)
    ensures r.error.Some? <==> id !in db.orders
    ensures r.error.Some? ==> r.db == db
    ensures r.error.None? ==>
              r.db == db.(orders := db.orders[id := db.orders[id].(status := Shipped, otp := Some(r.otp),
                                                                     shippedAt := Some(now))])
  {
    var otp := OtpText(random);
    if id !in db.orders then Shipment(db, Some(NoRowError), otp)
    else Shipment(db.(orders := db.orders[id := db.orders[id].(status := Shipped, otp := Some(otp),
                                                               shippedAt := Some(now))]),
                  None, otp)
  }

  // ---- deliverOrder --------------------------------------------------------------

  /** The checked writes of deliverOrder that the database may refuse. */
  datatype DeliverFaults = DeliverFaults(statusWrite: bool, sellerWalletWrite: bool)

  const NoFaults := DeliverFaults(false, false)

  function SetBalance(db: Db, id: string, balance: real): (r: Db)
    requires id in db.profiles
    ensures r.profiles.Keys == db.profiles.Keys && r.profiles[id].Balance() == balance
    ensures forall k :: k in db.profiles && k != id ==> r.profiles[k] == db.profiles[k]
    ensures r.orders == db.orders && r.products == db.products && r.ledger == db.ledger
  {
    db.(profiles := db.profiles[id := db.profiles[id].(walletBalance := Some(balance))])
  }

  /** The affiliate is paid when the order names one, the commission is
      positive and the affiliate's profile exists. */
  predicate PaysAffiliate(db: Db, o: Order) {
    Truthy(o.affiliateId) && o.Commission() > 0.0 && o.affiliateId.value in db.profiles
  }

  /** The ledger rows deliverOrder writes once the wallets are updated. */
  function DeliveryRecords(db: Db, o: Order, sellerBalance: real, fmt: Formats): seq<Transaction> {
    var product := ProductOf(db, o.productId);
    var name := if product.Some? then OrElse(Some(product.value.name), "Produit") else "Produit";
    var image := if product.Some? then product.value.imageUrl.GetOr("") else "";
    var q := OrOne(o.quantity);
    var unit := o.amount / (q as real);
    var commission := o.Commission();
    var purchase :=
      if o.buyerId in db.profiles
      then [PurchaseTransaction(o.buyerId, o.id, o.amount, db.profiles[o.buyerId].Balance(),
                                name, image, q, unit)]
      else [];
    var sale := [SaleTransaction(o.sellerId, o.id, o.amount - commission, sellerBalance, name, image,
                                 q, unit, if commission > 0.0 then Some(commission) else None, fmt)];
    var paid :=
      if PaysAffiliate(db, o)
      then [CommissionTransaction(o.affiliateId.value, o.id, commission,
                                  db.profiles[o.affiliateId.value].Balance(), name,
                                  RateOf(db, o.productId), o.amount, fmt)]
      else [];
    purchase + sale + paid
  }

  /** deliverOrder: checks the code against the trimmed input, marks the
      order delivered, credits the seller with the amount less the
      commission and the affiliate with the commission, then records the
      purchase, sale and commission in the ledger. The order status is
      written before the seller's profile is read, so a missing profile or a
      refused wallet write leaves a delivered, unpaid order. */
  function DeliverOrder(db: Db, id: string, otp: string, faults: DeliverFaults, fmt: Formats): (r: Outcome)
    ensures id !in db.orders ==> r == Outcome(db, Some(NoRowError))
    ensures id in db.orders && db.orders[id].otp != Some(Trim(otp))
            ==> r == Outcome(db, Some("Code OTP invalide"))
    ensures r.error.None? <==> id in db.orders && db.orders[id].otp == Some(Trim(otp))
                               && db.orders[id].sellerId in db.profiles
                               && !faults.statusWrite && !faults.sellerWalletWrite
    ensures r.error.None? ==> r.db.orders == db.orders[id := db.orders[id].(status := Delivered)]
    ensures r.db.orders.Keys == db.orders.Keys
  {
    if id !in db.orders then Outcome(db, Some(NoRowError))
    else
      var o := db.orders[id];
      if o.otp != Some(Trim(otp)) then Outcome(db, Some("Code OTP invalide"))
      else if faults.statusWrite then Outcome(db, Some(WriteError))
      else
        var db1 := db.(orders := db.orders[id := o.(status := Delivered)]);
        if o.sellerId !in db1.profiles then Outcome(db1, Some(NoRowError))
        else if faults.sellerWalletWrite then Outcome(db1, Some(WriteError))
        else Outcome(Settle(db1, o, fmt), None)
  }

  /** The seller's balance once the delivery is paid: the amount less the commission. */
  function SellerCredit(db: Db, o: Order): real
    requires o.sellerId in db.profiles
  {
    db.profiles[o.sellerId].Balance() + (o.amount - o.Commission())
  }

  /** The wallet writes of deliverOrder: the seller first, then a paid affiliate. */
  function Credits(db: Db, o: Order): (r: Db)
    requires o.sellerId in db.profiles
    ensures r.orders == db.orders && r.products == db.products && r.ledger == db.ledger
    ensures r.profiles.Keys == db.profiles.Keys
  {
    var db2 := SetBalance(db, o.sellerId, SellerCredit(db, o));
    if PaysAffiliate(db2, o)
    then SetBalance(db2, o.affiliateId.value, db2.profiles[o.affiliateId.value].Balance() + o.Commission())
    else db2
  }

  /** The wallets credited, then the ledger rows appended. */
  function Settle(db: Db, o: Order, fmt: Formats): (r: Db)
    requires o.sellerId in db.profiles
    ensures r.profiles == Credits(db, o).profiles && r.orders == db.orders
    ensures r.ledger == db.ledger + DeliveryRecords(Credits(db, o), o, SellerCredit(db, o), fmt)
  {
    var db3 := Credits(db, o);
    db3.(ledger := db3.ledger + DeliveryRecords(db3, o, SellerCredit(db, o), fmt))
  }

  /** What the wallet writes do to the balances. */
  lemma CreditsPayout(db: Db, o: Order)
    requires o.sellerId in db.profiles
    ensures var r := Credits(db, o);
            r.profiles[o.sellerId].Balance()
              == db.profiles[o.sellerId].Balance() + o.amount - o.Commission()
                 + (if PaysAffiliate(db, o) && o.affiliateId.value == o.sellerId then o.Commission() else 0.0)
            && (PaysAffiliate(db, o) && o.affiliateId.value != o.sellerId ==>
                  r.profiles[o.affiliateId.value].Balance()
                    == db.profiles[o.affiliateId.value].Balance() + o.Commission())
            && (!PaysAffiliate(db, o) ==>
                  forall k :: k in db.profiles && k != o.sellerId ==> r.profiles[k] == db.profiles[k])
  {
    var db2 := SetBalance(db, o.sellerId, SellerCredit(db, o));
    assert PaysAffiliate(db2, o) == PaysAffiliate(db, o);
  }

  /** A delivery with the right code and no refused write settles the order. */
  lemma DeliverSettles(db: Db, id: string, otp: string, fmt: Formats)
    requires id in db.orders && db.orders[id].otp == Some(Trim(otp))
    requires db.orders[id].sellerId in db.profiles
    ensures var o := db.orders[id];
            DeliverOrder(db, id, otp, NoFaults, fmt)
              == Outcome(Settle(db.(orders := db.orders[id := o.(status := Delivered)]), o, fmt), None)
  {
  }

  /** The payout of a successful delivery: the seller gains the amount less
      the commission, a paid affiliate (distinct from the seller) gains the
      commission, so the two credits add up to the order amount. */
  lemma DeliveryPayout(db: Db, id: string, otp: string, fmt: Formats)
    requires id in db.orders && db.orders[id].otp == Some(Trim(otp))
    requires db.orders[id].sellerId in db.profiles
    ensures var o := db.orders[id];
            var r := DeliverOrder(db, id, otp, NoFaults, fmt);
            r.error.None?
            && r.db.profiles[o.sellerId].Balance()
               == db.profiles[o.sellerId].Balance() + o.amount - o.Commission()
                  + (if PaysAffiliate(db, o) && o.affiliateId.value == o.sellerId then o.Commission() else 0.0)
            && (PaysAffiliate(db, o) && o.affiliateId.value != o.sellerId ==>
                  r.db.profiles[o.affiliateId.value].Balance()
                    == db.profiles[o.affiliateId.value].Balance() + o.Commission()
                  && (r.db.profiles[o.sellerId].Balance() - db.profiles[o.sellerId].Balance())
                     + (r.db.profiles[o.affiliateId.value].Balance()
                        - db.profiles[o.affiliateId.value].Balance()) == o.amount)
            && (!PaysAffiliate(db, o) ==>
                  forall k :: k in db.profiles && k != o.sellerId ==> r.db.profiles[k] == db.profiles[k])
  {
    var o := db.orders[id];
    var db1 := db.(orders := db.orders[id := o.(status := Delivered)]);
    DeliverSettles(db, id, otp, fmt);
    CreditsPayout(db1, o);
    assert db1.profiles == db.profiles;
  }

  /** The sale the ledger records for a delivery credits the seller's net
      amount, and its receipt recovers the order's commission. */
  lemma DeliveryRecordsSale(db: Db, id: string, otp: string, fmt: Formats)
    requires id in db.orders && db.orders[id].otp == Some(Trim(otp))
    requires db.orders[id].sellerId in db.profiles
    ensures var o := db.orders[id];
            var r := DeliverOrder(db, id, otp, NoFaults, fmt);
            exists i :: 0 <= i < |r.db.ledger| && r.db.ledger[i].kind == Sale
                        && r.db.ledger[i].userId == o.sellerId
                        && SignedAs(r.db.ledger[i], o.amount - o.Commission())
                        && r.db.ledger[i].quantity == Some(OrOne(o.quantity))
                        && r.db.ledger[i].unitPrice == Some(o.amount / (OrOne(o.quantity) as real))
  {
    var o := db.orders[id];
    var db1 := db.(orders := db.orders[id := o.(status := Delivered)]);
    DeliverSettles(db, id, otp, fmt);
    var recs := DeliveryRecords(Credits(db1, o), o, SellerCredit(db1, o), fmt);
    var p := SaleRecordAt(Credits(db1, o), o, SellerCredit(db1, o), fmt);
    LedgerAt(db.ledger, recs, p);
  }

  lemma LedgerAt(ledger: seq<Transaction>, recs: seq<Transaction>, p: nat)
    requires p < |recs|
    ensures (ledger + recs)[|ledger| + p] == recs[p]
  {
  }

  /** Where the sale sits among the records of a delivery, and what it says. */
  lemma SaleRecordAt(db: Db, o: Order, sellerBalance: real, fmt: Formats) returns (p: nat)
    ensures var recs := DeliveryRecords(db, o, sellerBalance, fmt);
            p < |recs| && recs[p].kind == Sale && recs[p].userId == o.sellerId
            && SignedAs(recs[p], o.amount - o.Commission())
            && recs[p].quantity == Some(OrOne(o.quantity))
            && recs[p].unitPrice == Some(o.amount / (OrOne(o.quantity) as real))
  {
    p := if o.buyerId in db.profiles then 1 else 0;
  }

  /** The receipt printed for the recorded sale shows the order's gross
      amount and its commission line, so the commission is recovered from
      the ledger row. */
  lemma DeliverySaleReceipt(db: Db, o: Order, sellerBalance: real, fmt: Formats, rowId: string, createdAt: int)
    requires 0.0 <= o.Commission() <= o.amount
    ensures var recs := DeliveryRecords(db, o, sellerBalance, fmt);
            exists p :: 0 <= p < |recs| && recs[p].kind == Sale
                        && Invoices.SaleReceiptOf(TxRow(rowId, createdAt, recs[p])).totalPrice == o.amount
                        && Invoices.SaleReceiptOf(TxRow(rowId, createdAt, recs[p])).commissionLine
                           == (if o.Commission() > 0.0 then Some(o.Commission()) else None)
  {
    var recs := DeliveryRecords(db, o, sellerBalance, fmt);
    var p := SaleRecordAt(db, o, sellerBalance, fmt);
    var q := OrOne(o.quantity);
    Invoices.SaleReceiptRecoversCommission(TxRow(rowId, createdAt, recs[p]), o.amount, o.Commission(), q);
  }

  /** deliverOrder does not look at the status it overwrites: delivering an
      already delivered order with the same code succeeds again and credits
      the seller a second time. */
  lemma DeliverTwiceCreditsTwice(db: Db, id: string, otp: string, fmt: Formats)
    requires id in db.orders && db.orders[id].otp == Some(Trim(otp))
    requires db.orders[id].sellerId in db.profiles && !PaysAffiliate(db, db.orders[id])
    ensures var o := db.orders[id];
            var once := DeliverOrder(db, id, otp, NoFaults, fmt);
            var twice := DeliverOrder(once.db, id, otp, NoFaults, fmt);
            twice.error.None?
            && twice.db.profiles[o.sellerId].Balance()
               == db.profiles[o.sellerId].Balance() + 2.0 * (o.amount - o.Commission())
  {
    var o := db.orders[id];
    var once := DeliverOrder(db, id, otp, NoFaults, fmt);
    DeliveryPayout(db, id, otp, fmt);
    assert once.db.orders[id] == o.(status := Delivered);
    assert once.db.orders[id].Commission() == o.Commission();
    assert !PaysAffiliate(once.db, once.db.orders[id]);
    DeliveryPayout(once.db, id, otp, fmt);
  }

  // ---- payment, full sale and status updates -------------------------------------

  /** The `confirm_order_payment` database procedure, whose body is not part
      of this model: given the state, an order id and the gateway status it
      is told, it answers the new state or an error. */
  type ConfirmPayment = (Db, string, string) -> Result<Db>

  /** simulatePayment: a missing order is an error; otherwise the payment is
      confirmed by the database procedure as 'succeeded'. */
  function SimulatePayment(db: Db, id: string, confirm: ConfirmPayment): (r: Result<Db>)
    ensures id !in db.orders ==> r == Err(NoRowError)
    ensures id in db.orders ==> r == confirm(db, id, "succeeded")
  {
    if id !in db.orders then Err(NoRowError) else confirm(db, id, "succeeded")
  }

  datatype SaleRun = SaleRun(db: Db, error: Option<string>, otp: Option<string>)

  /** simulateFullSale: payment, shipping, then delivery with the code the
      shipping produced, stopping at the first failing step with its error. */
  function SimulateFullSale(db: Db, id: string, confirm: ConfirmPayment, random: real, now: int,
                            faults: DeliverFaults, fmt: Formats): (r: SaleRun)
    requires 0.0 <= random < 1.0
    ensures SimulatePayment(db, id, confirm).Err? ==>
              r == SaleRun(db, Some(SimulatePayment(db, id, confirm).msg), None)
    ensures r.error.None? ==> r.otp == Some(OtpText(random)) && id in r.db.orders
                              && r.db.orders[id].status == Delivered
  {
    match SimulatePayment(db, id, confirm)
    case Err(e) => SaleRun(db, Some(e), None)
    case Ok(paid) => ShipAndDeliver(paid, id, random, now, faults, fmt)
  }

  /** The shipping and delivery steps of simulateFullSale, on the paid state. */
  function ShipAndDeliver(paid: Db, id: string, random: real, now: int, faults: DeliverFaults, fmt: Formats): (r: SaleRun)
    requires 0.0 <= random < 1.0
    ensures id !in paid.orders ==> r == SaleRun(paid, Some(NoRowError), None)
    ensures r.error.None? ==> r.otp == Some(OtpText(random)) && id in r.db.orders
                              && r.db.orders[id].status == Delivered
  {
    var shipped := ShipOrder(paid, id, random, now);
    if shipped.error.Some? then SaleRun(shipped.db, shipped.error, None)
    else
      var delivered := DeliverOrder(shipped.db, id, shipped.otp, faults, fmt);
      if delivered.error.Some? then SaleRun(delivered.db, delivered.error, None)
      else SaleRun(delivered.db, None, Some(shipped.otp))
  }

  /** The generated code survives the trimming of the delivery input. */
  lemma OtpTrimmed(random: real)
    requires 0.0 <= random < 1.0
    ensures Trim(OtpText(random)) == OtpText(random)
  {
    var otp := OtpText(random);
    assert IsDigit(otp[0]) && IsDigit(otp[|otp| - 1]);
    TrimUnchanged(otp);
  }

  /** The code handed from shipping to delivery always matches, so a full
      sale succeeds exactly when the payment is confirmed with the order
      still there, its seller has a profile and no checked write is refused. */
  lemma FullSaleSucceedsIff(db: Db, id: string, confirm: ConfirmPayment, random: real, now: int,
                            faults: DeliverFaults, fmt: Formats)
    requires 0.0 <= random < 1.0
    ensures var pay := SimulatePayment(db, id, confirm);
            SimulateFullSale(db, id, confirm, random, now, faults, fmt).error.None?
            <==> pay.Ok? && id in pay.value.orders && pay.value.orders[id].sellerId in pay.value.profiles
                 && !faults.statusWrite && !faults.sellerWalletWrite
  {
    var pay := SimulatePayment(db, id, confirm);
    if pay.Ok? {
      ShipAndDeliverIff(pay.value, id, random, now, faults, fmt);
    }
  }

  lemma ShipAndDeliverIff(paid: Db, id: string, random: real, now: int, faults: DeliverFaults, fmt: Formats)
    requires 0.0 <= random < 1.0
    ensures ShipAndDeliver(paid, id, random, now, faults, fmt).error.None?
            <==> id in paid.orders && paid.orders[id].sellerId in paid.profiles
                 && !faults.statusWrite && !faults.sellerWalletWrite
  {
    if id in paid.orders {
      var shipped := ShipOrder(paid, id, random, now);
      ShippedOrderAwaitsCode(paid, id, random, now);
      var delivered := DeliverOrder(shipped.db, id, shipped.otp, faults, fmt);
      assert ShipAndDeliver(paid, id, random, now, faults, fmt).error == delivered.error;
    }
  }

  /** After shipping, the order holds the code in the form delivery compares. */
  lemma ShippedOrderAwaitsCode(db: Db, id: string, random: real, now: int)
    requires 0.0 <= random < 1.0
    requires id in db.orders
    ensures var s := ShipOrder(db, id, random, now);
            s.error.None? && s.db.orders[id].otp == Some(Trim(s.otp))
            && s.db.orders[id].sellerId == db.orders[id].sellerId && s.db.profiles == db.profiles
  {
    var s := ShipOrder(db, id, random, now);
    var otp := OtpText(random);
    assert s.db.orders[id] == db.orders[id].(status := Shipped, otp := Some(otp), shippedAt := Some(now));
    assert Trim(otp) == otp by {
      OtpTrimmed(random);
    }
  }

  /** updateOrderStatus: 'paid' goes through the payment procedure; any
      other status is written directly. */
  function UpdateOrderStatus(db: Db, id: string, status: Status, confirm: ConfirmPayment): (r: Result<Db>)
    ensures status == Paid ==> r == confirm(db, id, "completed")
    ensures status != Paid ==>
              (r.Ok? <==> id in db.orders)
              && (r.Ok? ==> r.value.orders == db.orders[id := db.orders[id].(status := status)]
                            && r.value.profiles == db.profiles && r.value.ledger == db.ledger)
  {
    if status == Paid then confirm(db, id, "completed")
    else if id !in db.orders then Err(NoRowError)
    else Ok(db.(orders := db.orders[id := db.orders[id].(status := status)]))
  }
}
