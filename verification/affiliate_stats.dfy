/** The affiliate's statistics (src/hooks/useAffiliateStats.ts): earned and
    pending commissions, and the delivered sales grouped by product. */
module AffiliateStats {
  import opened Wrappers
  import opened Sorting
  import opened Entities

  /** A row of the sales query: a delivered order of the affiliate with the
      joined product's name, image and price. */
  datatype SaleRow = SaleRow(
    productId: string,
    commission: Option<real>,
    createdAt: int,
    productName: Option<string>,
    productImage: Option<string>,
    productPrice: Option<real>)

  /** One entry of salesByProduct. */
  datatype ProductSales = ProductSales(
    productId: string,
    productName: string,
    productImage: string,
    productPrice: real,
    salesCount: nat,
    totalEarned: real,
    lastSale: int)

  /** `Number(order.commission_amount || 0)`. */
  function RowCommission(r: SaleRow): real {
    OrZero(r.commission)
  }

  /** The entry a product's first row creates, before that row is counted. */
  function NewEntry(r: SaleRow): (e: ProductSales)
    ensures e.productId == r.productId && e.salesCount == 0 && e.totalEarned == 0.0
  {
    ProductSales(r.productId, OrElse(r.productName, "Produit"), OrElse(r.productImage, ""),
                 OrZero(r.productPrice), 0, 0.0, r.createdAt)
  }

  /** `sale.sales_count++; sale.total_earned += commission`. */
  function Count1(e: ProductSales, r: SaleRow): ProductSales {
    e.(salesCount := e.salesCount + 1, totalEarned := e.totalEarned + RowCommission(r))
  }

  /** Each product appears in at most one entry (the Map's keys). */
  predicate Unique(groups: seq<ProductSales>) {
    forall i, j :: 0 <= i < j < |groups| ==> groups[i].productId != groups[j].productId
  }

  /** Position of a product's entry, `|groups|` when it has none. */
  function Find(groups: seq<ProductSales>, pid: string): (i: nat)
    ensures i <= |groups|
    ensures i < |groups| ==> groups[i].productId == pid
    ensures forall j :: 0 <= j < i ==> groups[j].productId != pid
    ensures i == |groups| ==> forall j :: 0 <= j < |groups| ==> groups[j].productId != pid
  {
    if groups == [] then 0
    else if groups[0].productId == pid then 0
    else 1 + Find(groups[1..], pid)
  }

  predicate Has(groups: seq<ProductSales>, pid: string) {
    Find(groups, pid) < |groups|
  }

  /** The product's entry, with a count of 0 when it has none. */
  function Entry(groups: seq<ProductSales>, pid: string): ProductSales {
    if Has(groups, pid) then groups[Find(groups, pid)] else ProductSales(pid, "", "", 0.0, 0, 0.0, 0)
  }

  /** With unique products, the entry found is the one at its index. */
  lemma FindUnique(groups: seq<ProductSales>, i: nat)
    requires Unique(groups) && i < |groups|
    ensures Find(groups, groups[i].productId) == i
  {
  }

  /** One iteration of the forEach: counts the row into its product's entry,
      creating the entry when the product is new. */
  function Merge(groups: seq<ProductSales>, r: SaleRow): (g: seq<ProductSales>)
    ensures Has(g, r.productId)
  {
    var i := Find(groups, r.productId);
    if i < |groups| then
      var g := groups[i := Count1(groups[i], r)];
      assert g[i].productId == r.productId;
      g
    else
      var g := groups + [Count1(NewEntry(r), r)];
      assert g[|groups|].productId == r.productId;
      g
  }

  /** The forEach over the rows, from an accumulated list of entries. */
  function Fold(groups: seq<ProductSales>, rows: seq<SaleRow>): seq<ProductSales>
    decreases |rows|
  {
    if rows == [] then groups else Fold(Merge(groups, rows[0]), rows[1..])
  }

  /** Number of rows for a product. */
  function SalesOf(rows: seq<SaleRow>, pid: string): nat {
    if rows == [] then 0 else (if rows[0].productId == pid then 1 else 0) + SalesOf(rows[1..], pid)
  }

  /** Commission earned on a product's rows. */
  function EarnedOf(rows: seq<SaleRow>, pid: string): real {
    if rows == [] then 0.0 else (if rows[0].productId == pid then RowCommission(rows[0]) else 0.0) + EarnedOf(rows[1..], pid)
  }

  /** Index of a product's first row, `|rows|` when it has none. */
  function FirstOf(rows: seq<SaleRow>, pid: string): (i: nat)
    ensures i <= |rows|
    ensures i < |rows| ==> rows[i].productId == pid
    ensures forall j :: 0 <= j < i ==> rows[j].productId != pid
  {
    if rows == [] then 0
    else if rows[0].productId == pid then 0
    else 1 + FirstOf(rows[1..], pid)
  }

  lemma {:induction false} SalesOfPositive(rows: seq<SaleRow>, pid: string)
    ensures SalesOf(rows, pid) > 0 <==> FirstOf(rows, pid) < |rows|
    decreases |rows|
  {
    if rows != [] {
      SalesOfPositive(rows[1..], pid);
    }
  }

  function EntryCount(e: ProductSales): real {
    e.salesCount as real
  }

  function EntryEarned(e: ProductSales): real {
    e.totalEarned
  }

  /** What `NewEntry` fixes from a product's first row: everything but the
      counters. */
  function Meta(e: ProductSales): (string, string, real, int) {
    (e.productName, e.productImage, e.productPrice, e.lastSale)
  }

  /** One merge keeps products unique, counts the row into its product only,
      leaves the first row's name, image, price and date in place, and adds
      one sale and the row's commission to the totals. */
  lemma MergeStep(groups: seq<ProductSales>, r: SaleRow)
    requires Unique(groups)
    ensures var g := Merge(groups, r);
            Unique(g)
            && (forall pid :: Has(g, pid) <==> Has(groups, pid) || pid == r.productId)
            && Entry(g, r.productId).salesCount == Entry(groups, r.productId).salesCount + 1
            && Entry(g, r.productId).totalEarned == Entry(groups, r.productId).totalEarned + RowCommission(r)
            && (Has(groups, r.productId) ==> Meta(Entry(g, r.productId)) == Meta(Entry(groups, r.productId)))
            && (!Has(groups, r.productId) ==> Meta(Entry(g, r.productId)) == Meta(NewEntry(r)))
            && (forall pid :: pid != r.productId ==> Entry(g, pid) == Entry(groups, pid))
            && Sum(g, EntryCount) == Sum(groups, EntryCount) + 1.0
            && Sum(g, EntryEarned) == Sum(groups, EntryEarned) + RowCommission(r)
  {
    var g := Merge(groups, r);
    var i := Find(groups, r.productId);
    if i < |groups| {
      SumUpdate(groups, i, Count1(groups[i], r), EntryCount);
      SumUpdate(groups, i, Count1(groups[i], r), EntryEarned);
      assert Unique(g);
      FindUnique(g, i);
      forall pid
        ensures Has(g, pid) <==> Has(groups, pid) || pid == r.productId
      {
        if Has(groups, pid) {
          assert g[Find(groups, pid)].productId == pid;
        }
        if Has(g, pid) {
          assert groups[Find(g, pid)].productId == pid;
        }
      }
      forall pid | pid != r.productId
        ensures Entry(g, pid) == Entry(groups, pid)
      {
        if Has(groups, pid) {
          FindUnique(groups, Find(groups, pid));
          FindUnique(g, Find(groups, pid));
        }
      }
    } else {
      var e := Count1(NewEntry(r), r);
      SumAppend(groups, [e], EntryCount);
      SumAppend(groups, [e], EntryEarned);
      assert Unique(g);
      FindUnique(g, |groups|);
      forall pid
        ensures Has(g, pid) <==> Has(groups, pid) || pid == r.productId
      {
        if Has(groups, pid) {
          assert g[Find(groups, pid)].productId == pid;
        }
        if Has(g, pid) && pid != r.productId {
          assert groups[Find(g, pid)].productId == pid;
        }
      }
      forall pid | pid != r.productId
        ensures Entry(g, pid) == Entry(groups, pid)
      {
        if Has(groups, pid) {
          FindUnique(groups, Find(groups, pid));
          FindUnique(g, Find(groups, pid));
        }
      }
    }
  }

  /** The forEach as a whole: each product's entry counts exactly its rows
      and their commission, carries its first row's name, image, price and
      date, and the totals over all entries are the number of rows and their
      whole commission. */
  lemma {:induction false} FoldFacts(groups: seq<ProductSales>, rows: seq<SaleRow>, pid: string)
    requires Unique(groups)
    ensures var g := Fold(groups, rows);
            Unique(g)
            && (Has(g, pid) <==> Has(groups, pid) || SalesOf(rows, pid) > 0)
            && Entry(g, pid).salesCount == Entry(groups, pid).salesCount + SalesOf(rows, pid)
            && Entry(g, pid).totalEarned == Entry(groups, pid).totalEarned + EarnedOf(rows, pid)
            && (Has(groups, pid) ==> Meta(Entry(g, pid)) == Meta(Entry(groups, pid)))
            && (!Has(groups, pid) && FirstOf(rows, pid) < |rows| ==>
                  Meta(Entry(g, pid)) == Meta(NewEntry(rows[FirstOf(rows, pid)])))
            && Sum(g, EntryCount) == Sum(groups, EntryCount) + |rows| as real
            && Sum(g, EntryEarned) == Sum(groups, EntryEarned) + Sum(rows, RowCommission)
    decreases |rows|
  {
    if rows != [] {
      var r := rows[0];
      MergeStep(groups, r);
      FoldFacts(Merge(groups, r), rows[1..], pid);
      SalesOfPositive(rows[1..], pid);
      SalesOfPositive(rows, pid);
    }
  }

  /** The Map's values in insertion order. */
  function GroupSales(rows: seq<SaleRow>): seq<ProductSales> {
    Fold([], rows)
  }

  /** The grouping has one entry per product sold, counting exactly that
      product's rows and commission, and its totals are the number of rows
      and the total commission. */
  lemma GroupSalesFacts(rows: seq<SaleRow>)
    ensures var g := GroupSales(rows);
            Unique(g)
            && (forall pid :: Has(g, pid) <==> SalesOf(rows, pid) > 0)
            && (forall e :: e in g ==> (e.salesCount == SalesOf(rows, e.productId)
                                      && e.totalEarned == EarnedOf(rows, e.productId)
                                      && FirstOf(rows, e.productId) < |rows|
                                      && e.lastSale == rows[FirstOf(rows, e.productId)].createdAt))
            && Sum(g, EntryCount) == |rows| as real
            && Sum(g, EntryEarned) == Sum(rows, RowCommission)
  {
    var g := GroupSales(rows);
    FoldFacts([], rows, "");
    forall pid
      ensures Has(g, pid) <==> SalesOf(rows, pid) > 0
    {
      FoldFacts([], rows, pid);
    }
    forall e | e in g
      ensures e.salesCount == SalesOf(rows, e.productId)
      ensures e.totalEarned == EarnedOf(rows, e.productId)
      ensures FirstOf(rows, e.productId) < |rows|
      ensures e.lastSale == rows[FirstOf(rows, e.productId)].createdAt
    {
      var i :| 0 <= i < |g| && g[i] == e;
      FoldFacts([], rows, e.productId);
      FindUnique(g, i);
      SalesOfPositive(rows, e.productId);
    }
  }

  /** Rows come newest first, so a product's first row is its latest sale. */
  lemma LastSaleIsLatest(rows: seq<SaleRow>, pid: string)
    requires forall i, j :: 0 <= i < j < |rows| ==> rows[i].createdAt >= rows[j].createdAt
    requires FirstOf(rows, pid) < |rows|
    ensures forall j :: 0 <= j < |rows| && rows[j].productId == pid ==> rows[FirstOf(rows, pid)].createdAt >= rows[j].createdAt
  {
  }

  /** salesByProduct: the entries by total earned, highest first. */
  function SalesByProduct(rows: seq<SaleRow>): (r: seq<ProductSales>)
    ensures Sorted(r, EntryEarned, true)
    ensures multiset(r) == multiset(GroupSales(rows))
  {
    SortBy(GroupSales(rows), EntryEarned, true)
  }

  /** A list with unique products holds each entry once. */
  lemma {:induction false} UniqueOnce(s: seq<ProductSales>, x: ProductSales)
    requires Unique(s)
    ensures multiset(s)[x] <= 1
    decreases |s|
  {
    if s != [] {
      assert s == [s[0]] + s[1..];
      assert multiset(s) == multiset{s[0]} + multiset(s[1..]);
      UniqueOnce(s[1..], x);
      if x == s[0] {
        assert x !in s[1..];
      }
    }
  }

  /** Reordering keeps products unique. */
  lemma UniquePermutation(a: seq<ProductSales>, b: seq<ProductSales>)
    requires Unique(a) && multiset(a) == multiset(b)
    ensures Unique(b)
  {
    forall i, j | 0 <= i < j < |b|
      ensures b[i].productId != b[j].productId
    {
      if b[i].productId == b[j].productId {
        assert b[i] in multiset(a) && b[j] in multiset(a);
        var p :| 0 <= p < |a| && a[p] == b[i];
        var q :| 0 <= q < |a| && a[q] == b[j];
        assert p == q;
        assert b == b[..j] + b[j..];
        assert b[i] in b[..j];
        assert multiset(b)[b[i]] == multiset(b[..j])[b[i]] + multiset(b[j..])[b[i]];
        assert b[j..][0] == b[i];
        UniqueOnce(a, b[i]);
      }
    }
  }

  /** The grouped and sorted list keeps every property of the grouping. */
  lemma SalesByProductFacts(rows: seq<SaleRow>)
    ensures var r := SalesByProduct(rows);
            Unique(r)
            && (forall e :: e in r ==> (e.salesCount == SalesOf(rows, e.productId)
                                      && e.totalEarned == EarnedOf(rows, e.productId)))
            && (forall pid :: SalesOf(rows, pid) > 0 <==> exists e :: e in r && e.productId == pid)
            && Sum(r, EntryCount) == |rows| as real
            && Sum(r, EntryEarned) == Sum(rows, RowCommission)
  {
    var g := GroupSales(rows);
    var r := SalesByProduct(rows);
    GroupSalesFacts(rows);
    UniquePermutation(g, r);
    SumPermutation(g, r, EntryCount);
    SumPermutation(g, r, EntryEarned);
    forall e | e in r
      ensures e in g
    {
      assert e in multiset(r);
    }
    forall pid
      ensures SalesOf(rows, pid) > 0 <==> exists e :: e in r && e.productId == pid
    {
      if SalesOf(rows, pid) > 0 {
        var e := g[Find(g, pid)];
        assert e in multiset(g);
        assert e in r;
      }
    }
  }

  // ---- the hook ----------------------------------------------------------

  /** The hook's result. */
  datatype Stats = Stats(
    totalEarned: real,
    pendingEarnings: real,
    salesCount: nat,
    pendingSalesCount: nat,
    salesByProduct: seq<ProductSales>)

  function OrderCommission(o: Order): real {
    o.Commission()
  }

  function OrderCreated(o: Order): real {
    o.createdAt as real
  }

  predicate DeliveredFor(o: Order, uid: string) {
    o.affiliateId == Some(uid) && o.status == Delivered
  }

  predicate PendingFor(o: Order, uid: string) {
    o.affiliateId == Some(uid) && (o.status == Paid || o.status == Shipped)
  }

  /** A sales row as the join returns it. */
  function SaleRowOf(o: Order, products: map<string, Product>): (r: SaleRow)
    ensures r.productId == o.productId && RowCommission(r) == o.Commission()
  {
    if o.productId in products then
      var p := products[o.productId];
      SaleRow(o.productId, o.commissionAmount, o.createdAt, Some(p.name), p.imageUrl, Some(p.price))
    else SaleRow(o.productId, o.commissionAmount, o.createdAt, None, None, None)
  }

  function SaleRows(orders: seq<Order>, products: map<string, Product>): (r: seq<SaleRow>)
    ensures |r| == |orders|
    ensures forall i :: 0 <= i < |orders| ==> r[i] == SaleRowOf(orders[i], products)
  {
    if orders == [] then [] else [SaleRowOf(orders[0], products)] + SaleRows(orders[1..], products)
  }

  lemma {:induction false} SaleRowsCommission(orders: seq<Order>, products: map<string, Product>)
    ensures Sum(SaleRows(orders, products), RowCommission) == Sum(orders, OrderCommission)
    decreases |orders|
  {
    if orders != [] {
      SaleRowsCommission(orders[1..], products);
      assert SaleRows(orders, products)[1..] == SaleRows(orders[1..], products);
    }
  }

  /** useAffiliateStats: nothing without a user; a failing query throws its
      error; otherwise the three queries' totals and the grouped sales. */
  function AffiliateStats(orders: seq<Order>, products: map<string, Product>, userId: Option<string>,
                          queryError: Option<string>): (r: Result<Option<Stats>>)
    ensures r == Ok(None) <==> !Truthy(userId)
    ensures r.Err? <==> Truthy(userId) && queryError.Some?
    ensures r.Ok? && r.value.Some? ==>
              var s := r.value.value;
              var delivered := Filter(orders, (o: Order) => DeliveredFor(o, userId.value));
              var pending := Filter(orders, (o: Order) => PendingFor(o, userId.value));
              s.totalEarned == Sum(delivered, OrderCommission)
              && s.pendingEarnings == Sum(pending, OrderCommission)
              && s.salesCount == |delivered| && s.pendingSalesCount == |pending|
  {
    if !Truthy(userId) then Ok(None)
    else if queryError.Some? then Err(queryError.value)
    else
      var uid := userId.value;
      var delivered := Filter(orders, (o: Order) => DeliveredFor(o, uid));
      var pending := Filter(orders, (o: Order) => PendingFor(o, uid));
      var rows := SaleRows(SortBy(delivered, OrderCreated, true), products);
      Ok(Some(Stats(Sum(delivered, OrderCommission), Sum(pending, OrderCommission),
                    |delivered|, |pending|, SalesByProduct(rows))))
  }

  /** The dashboard's sales summary agrees with the headline figures: the
      per-product sales counts add up to the delivered count and the
      per-product earnings to the total earned. */
  lemma SummaryMatchesTotals(orders: seq<Order>, products: map<string, Product>, userId: Option<string>)
    requires AffiliateStats(orders, products, userId, None).Ok?
    requires AffiliateStats(orders, products, userId, None).value.Some?
    ensures var s := AffiliateStats(orders, products, userId, None).value.value;
            Sum(s.salesByProduct, EntryCount) == s.salesCount as real
            && Sum(s.salesByProduct, EntryEarned) == s.totalEarned
  {
    var uid := userId.value;
    var delivered := Filter(orders, (o: Order) => DeliveredFor(o, uid));
    var sorted := SortBy(delivered, OrderCreated, true);
    var rows := SaleRows(sorted, products);
    SalesByProductFacts(rows);
    SaleRowsCommission(sorted, products);
    SumPermutation(sorted, delivered, OrderCommission);
  }
}
