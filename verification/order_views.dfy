/** The order pages: the list with its tabs, search, counters and actions
    (src/pages/orders/OrdersList.tsx), the order card with its status badge,
    relative date and role-dependent button (src/components/orders/OrderCard.tsx),
    and the details modal with its timeline, total and contact
    (src/components/orders/OrderDetailsModal.tsx). */
module OrderViews {
  import opened Wrappers
  import opened Text
  import opened Entities
  import Orders
  import Transactions

  // ---- roles and list sources -------------------------------------------------

  /** The two ways the order pages are drawn. */
  datatype ViewRole = BuyerView | SellerView

  /** `userRole`: only a seller profile gets the seller view; buyers,
      affiliates, admins and missing profiles all get the buyer view. */
  function UserRole(role: Option<Role>): (r: ViewRole)
    ensures r == SellerView <==> role == Some(Seller)
  {
    if role == Some(Seller) then SellerView else BuyerView
  }

  /** Which query fetchOrders runs for the profile's role. */
  datatype ListSource = BySeller | ByAffiliate | ByBuyer

  function SourceOf(role: Role): (s: ListSource)
    ensures s == BySeller <==> role == Seller
    ensures s == ByAffiliate <==> role == Affiliate
  {
    if role == Seller then BySeller else if role == Affiliate then ByAffiliate else ByBuyer
  }

  /** The name columns of a joined profile. */
  datatype Names = Names(fullName: Option<string>, storeName: Option<string>)

  /** The profile each list query joins: the seller for a buyer's list, the
      buyer for a seller's list, none for an affiliate's list. The queries
      store that join under the keys `seller` and `buyer`
      (src/services/orderService.ts:98, 114), never under `profiles`. */
  function Counterpart(o: Order, src: ListSource): (r: Option<Names>)
    ensures src == ByAffiliate <==> r.None?
    ensures src == ByBuyer ==> r == Some(Names(o.sellerName, o.sellerStoreName))
    ensures src == BySeller ==> r == Some(Names(o.buyerName, None))
  {
    match src
    case ByBuyer => Some(Names(o.sellerName, o.sellerStoreName))
    case BySeller => Some(Names(o.buyerName, None))
    case ByAffiliate => None
  }

  // ---- filterOrders -------------------------------------------------------------

  /** `field?.toLowerCase().includes(query.toLowerCase())`: a missing field
      never matches. */
  predicate FieldHit(field: Option<string>, query: string) {
    field.Some? && Includes(Lower(field.value), Lower(query))
  }

  /** The search test of filterOrders on a row whose `profiles` key holds
      `profiles`: the id, the product name, the profile's full name or its
      store name contains the query, ignoring case. */
  predicate SearchHit(o: Order, profiles: Option<Names>, query: string) {
    FieldHit(Some(o.id), query) || FieldHit(o.productName, query)
    || (profiles.Some? && (FieldHit(profiles.value.fullName, query) || FieldHit(profiles.value.storeName, query)))
  }

  /** The tab test: `all` (None) keeps everything, a status tab keeps its status. */
  predicate InTab(o: Order, tab: Option<Status>) {
    tab.None? || o.status == tab.value
  }

  /** The tab filter then, for a non-empty query, the search filter. */
  function TabThenSearch(orders: seq<Order>, tab: Option<Status>, query: string, hit: Order -> bool): (r: seq<Order>)
    ensures Subsequence(r, orders)
    ensures KeepsCounts(r, orders, (o: Order) => InTab(o, tab) && (query != "" ==> hit(o)))
  {
    var byTab := if tab.Some? then Filter(orders, IsStatus(tab.value)) else orders;
    var r := if query != "" then Filter(byTab, hit) else byTab;
    assert Subsequence(r, orders) && KeepsCounts(r, orders, (o: Order) => InTab(o, tab) && (query != "" ==> hit(o))) by {
      if tab.None? {
        SubsequenceRefl(orders);
      } else if query != "" {
        FilterTwice(orders, IsStatus(tab.value), hit);
      }
    }
    r
  }

  /** filterOrders as written: the rows carry no `profiles` key, so the two
      name branches of the search never match. */
  function FilterOrdersAsWritten(orders: seq<Order>, tab: Option<Status>, query: string): (r: seq<Order>)
    ensures forall o :: o in r <==> o in orders && InTab(o, tab) && (query != "" ==> SearchHit(o, None, query))
    ensures Subsequence(r, orders)
    ensures KeepsCounts(r, orders, (o: Order) => InTab(o, tab) && (query != "" ==> SearchHit(o, None, query)))
  {
    TabThenSearch(orders, tab, query, (o: Order) => SearchHit(o, None, query))
  }

  /** filterOrders reading the names from the profile the list query joined. */
  function FilterOrders(orders: seq<Order>, src: ListSource, tab: Option<Status>, query: string): (r: seq<Order>)
    ensures |r| <= |orders|
    ensures forall o :: o in r <==> o in orders && InTab(o, tab) && (query != "" ==> SearchHit(o, Counterpart(o, src), query))
    ensures Subsequence(r, orders)
    ensures KeepsCounts(r, orders, (o: Order) => InTab(o, tab) && (query != "" ==> SearchHit(o, Counterpart(o, src), query)))
  {
    TabThenSearch(orders, tab, query, (o: Order) => SearchHit(o, Counterpart(o, src), query))
  }

  /** A buyer's order from the store "ab", searched for "b". */
  const StoreOrder := Order("1", "u", "s", "p", None, 1000.0, Some(1), None, Paid, None, 0, None, None,
                            None, None, None, None, Some("ab"), None, None, None, None, None, None)

  /** As written, searching a buyer's orders by the seller's store name finds
      nothing; reading the joined seller finds the order. */
  lemma StoreSearchMissedAsWritten()
    ensures FilterOrdersAsWritten([StoreOrder], None, "b") == []
    ensures FilterOrders([StoreOrder], ByBuyer, None, "b") == [StoreOrder]
  {
    assert !Includes("1", "b");
    assert Includes(Lower("ab"), Lower("b")) by {
      assert Lower("ab") == "ab" && Lower("b") == "b";
      assert "ab"[1..][..1] == "b";
    }
    assert SearchHit(StoreOrder, Counterpart(StoreOrder, ByBuyer), "b");
  }

  /** An empty search on the `all` tab lists every order, in order. */
  lemma AllTabShowsEverything(orders: seq<Order>, src: ListSource)
    ensures FilterOrders(orders, src, None, "") == orders
  {
  }

  /** Any search result is also a result of the empty search on the same tab. */
  lemma SearchNarrows(orders: seq<Order>, src: ListSource, tab: Option<Status>, query: string)
    ensures forall o :: o in FilterOrders(orders, src, tab, query) ==> o in FilterOrders(orders, src, tab, "")
  {
  }

  // ---- getTabCounts and getSellerStats --------------------------------------------

  function IsStatus(st: Status): Order -> bool {
    (o: Order) => o.status == st
  }

  datatype TabCounts = TabCounts(all: nat, pending: nat, paid: nat, shipped: nat, delivered: nat, cancelled: nat)

  /** The number shown on a tab. */
  function CountOnTab(c: TabCounts, st: Status): Option<nat> {
    match st
    case Pending => Some(c.pending)
    case Paid => Some(c.paid)
    case Shipped => Some(c.shipped)
    case Delivered => Some(c.delivered)
    case Cancelled => Some(c.cancelled)
    case OtherStatus(_) => None
  }

  /** getTabCounts: the number of orders and the number of each status. */
  function GetTabCounts(orders: seq<Order>): (r: TabCounts)
    ensures r.all == |orders|
    ensures r.pending + r.paid + r.shipped + r.delivered + r.cancelled <= r.all
  {
    FiveCountsBounded(orders);
    TabCounts(|orders|, Count(orders, IsStatus(Pending)), Count(orders, IsStatus(Paid)),
              Count(orders, IsStatus(Shipped)), Count(orders, IsStatus(Delivered)),
              Count(orders, IsStatus(Cancelled)))
  }

  /** An order has at most one of the five statuses. */
  lemma {:induction false} FiveCountsBounded(orders: seq<Order>)
    ensures Count(orders, IsStatus(Pending)) + Count(orders, IsStatus(Paid)) + Count(orders, IsStatus(Shipped))
            + Count(orders, IsStatus(Delivered)) + Count(orders, IsStatus(Cancelled)) <= |orders|
    decreases |orders|
  {
    if orders != [] {
      FiveCountsBounded(orders[1..]);
    }
  }

  /** The number on each status tab is the number of orders that tab lists
      before any search. */
  lemma TabCountMatchesList(orders: seq<Order>, src: ListSource, st: Status)
    requires !st.OtherStatus?
    ensures CountOnTab(GetTabCounts(orders), st) == Some(|FilterOrders(orders, src, Some(st), "")|)
  {
    CountIsFilterLength(orders, IsStatus(st));
  }

  datatype SellerStats = SellerStats(pending: nat, paid: nat, shipped: nat, delivered: nat, cancelled: nat,
                                     totalRevenue: real)

  function AmountOf(o: Order): real {
    o.amount
  }

  /** The revenue of the delivered orders, order by order. */
  function DeliveredRevenue(orders: seq<Order>): real {
    if orders == [] then 0.0
    else (if orders[0].status == Delivered then orders[0].amount else 0.0) + DeliveredRevenue(orders[1..])
  }

  /** getSellerStats: the status counts and the summed amounts of the
      delivered orders. */
  function GetSellerStats(orders: seq<Order>): (r: SellerStats)
    ensures r.totalRevenue == DeliveredRevenue(orders)
    ensures r.delivered == |Filter(orders, IsStatus(Delivered))|
  {
    SumDelivered(orders);
    CountIsFilterLength(orders, IsStatus(Delivered));
    var c := GetTabCounts(orders);
    SellerStats(c.pending, c.paid, c.shipped, c.delivered, c.cancelled,
                Sum(Filter(orders, IsStatus(Delivered)), AmountOf))
  }

  lemma {:induction false} SumDelivered(orders: seq<Order>)
    ensures Sum(Filter(orders, IsStatus(Delivered)), AmountOf) == DeliveredRevenue(orders)
    decreases |orders|
  {
    if orders != [] {
      SumDelivered(orders[1..]);
      var rest := Filter(orders[1..], IsStatus(Delivered));
      if orders[0].status == Delivered {
        assert Filter(orders, IsStatus(Delivered)) == [orders[0]] + rest;
        assert ([orders[0]] + rest)[1..] == rest;
      } else {
        assert Filter(orders, IsStatus(Delivered)) == rest;
      }
    }
  }

  /** Delivering one shipped order adds exactly its amount to the revenue,
      and the revenue of orders none of which is delivered is 0. */
  lemma {:induction false} DeliveryAddsRevenue(orders: seq<Order>, i: nat)
    requires i < |orders| && orders[i].status != Delivered
    ensures DeliveredRevenue(orders[i := orders[i].(status := Delivered)]) == DeliveredRevenue(orders) + orders[i].amount
    decreases |orders|
  {
    var after := orders[i := orders[i].(status := Delivered)];
    if i == 0 {
      assert after[1..] == orders[1..];
    } else {
      DeliveryAddsRevenue(orders[1..], i - 1);
      assert after[1..] == orders[1..][i - 1 := orders[i].(status := Delivered)];
    }
  }

  // ---- handleAction ---------------------------------------------------------------

  /** What handleAction leaves behind: the database, the alert shown, the
      order opened for review, and whether the list is fetched again. */
  datatype ActionOutcome = ActionOutcome(db: Orders.Db, alert: Option<string>, review: Option<Order>, refetch: bool)

  function ShippedAlert(otp: string): string {
    "\U{2705} Commande marqu\U{00E9}e comme exp\U{00E9}di\U{00E9}e !\n\n\U{1F511} Code de validation : " + otp
    + "\n\nL'acheteur devra vous communiquer ce code \U{00E0} la livraison."
  }

  const DeliveredAlert := "\U{1F389} Livraison valid\U{00E9}e avec succ\U{00E8}s !\n\n\U{1F4B0} Les fonds ont \U{00E9}t\U{00E9} transf\U{00E9}r\U{00E9}s sur votre portefeuille."

  const CancelNotice := "Fonctionnalit\U{00E9} d'annulation \U{00E0} impl\U{00E9}menter"

  /** The first order with the id, as `orders.find`. */
  function FindOrder(orders: seq<Order>, id: string): (r: Option<Order>)
    ensures r.Some? <==> exists i :: 0 <= i < |orders| && orders[i].id == id
    ensures r.Some? ==> r.value in orders && r.value.id == id
  {
    if orders == [] then None
    else if orders[0].id == id then Some(orders[0])
    else
      var rest := FindOrder(orders[1..], id);
      assert rest.Some? ==> rest.value in orders;
      assert (exists i :: 0 <= i < |orders[1..]| && orders[1..][i].id == id)
             <==> (exists i :: 1 <= i < |orders| && orders[i].id == id) by {
        if i :| 1 <= i < |orders| && orders[i].id == id {
          assert orders[1..][i - 1].id == id;
        }
      }
      rest
  }

  /** handleAction. `ship` ships and shows the code; `deliver` asks for the
      code (`prompted`, None when the prompt is dismissed) and delivers only
      when something was typed; `cancel` only shows a notice after
      confirmation; `review` opens the review form when the order is in the
      list. `random` is the value `Math.random()` gives shipOrder. */
  function HandleAction(db: Orders.Db, orders: seq<Order>, orderId: string, action: string,
                        prompted: Option<string>, confirmed: bool, random: real, now: int,
                        faults: Orders.DeliverFaults, fmt: Transactions.Formats): (r: ActionOutcome)
    requires 0.0 <= random < 1.0
    ensures action != "ship" && action != "deliver" ==> r.db == db && !r.refetch
    ensures action == "deliver" && !Truthy(prompted) ==> r == ActionOutcome(db, None, None, false)
    ensures action == "cancel" ==> r.alert == (if confirmed then Some(CancelNotice) else None)
    ensures action == "deliver" && Truthy(prompted) ==>
              var d := Orders.DeliverOrder(db, orderId, prompted.value, faults, fmt);
              r.db == d.db && (r.alert == Some(DeliveredAlert) <==> d.error.None?)
    ensures r.review.Some? <==> action == "review" && FindOrder(orders, orderId).Some?
    ensures r.review.Some? ==> r.review.value in orders && r.review.value.id == orderId
    ensures r.refetch <==> (action == "ship" && orderId in db.orders) || r.alert == Some(DeliveredAlert)
  {
    if action == "ship" then
      var s := Orders.ShipOrder(db, orderId, random, now);
      if s.error.Some? then ActionOutcome(db, Some("Erreur lors de l'exp\U{00E9}dition: " + s.error.value), None, false)
      else ActionOutcome(s.db, Some(ShippedAlert(s.otp)), None, true)
    else if action == "deliver" then
      if !Truthy(prompted) then ActionOutcome(db, None, None, false)
      else
        var d := Orders.DeliverOrder(db, orderId, prompted.value, faults, fmt);
        if d.error.Some? then ActionOutcome(d.db, Some("\U{274C} " + d.error.value), None, false)
        else ActionOutcome(d.db, Some(DeliveredAlert), None, true)
    else if action == "cancel" then
      ActionOutcome(db, if confirmed then Some(CancelNotice) else None, None, false)
    else if action == "review" then
      ActionOutcome(db, None, FindOrder(orders, orderId), false)
    else ActionOutcome(db, None, None, false)
  }

  // ---- OrderCard --------------------------------------------------------------------

  /** The badge of getStatusConfig. */
  function StatusLabel(st: Status): (badge: string)
    ensures st.OtherStatus? ==> badge == st.raw
  {
    match st
    case Pending => "En attente"
    case Paid => "Pay\U{00E9}"
    case Shipped => "Exp\U{00E9}di\U{00E9}"
    case Delivered => "Livr\U{00E9}"
    case Cancelled => "Annul\U{00E9}"
    case OtherStatus(raw) => raw
  }

  /** The five known statuses get five different badges. */
  lemma KnownLabelsDistinct(a: Status, b: Status)
    requires !a.OtherStatus? && !b.OtherStatus? && a != b
    ensures StatusLabel(a) != StatusLabel(b)
  {
  }

  /** The card's button: an action handed to handleAction, or a link. */
  datatype CardButton = Act(action: string) | Link(path: string)

  /** renderActions. A seller ships a paid order, confirms delivery of a
      shipped one and contacts the buyer of a delivered one; a buyer reviews
      a delivered order and contacts the seller of a shipped one; every
      other case has no button. */
  function CardAction(role: ViewRole, o: Order): (r: Option<CardButton>)
    ensures r.Some? <==> (o.status == Shipped || o.status == Delivered || (role == SellerView && o.status == Paid))
    ensures r == Some(Act("ship")) <==> role == SellerView && o.status == Paid
    ensures r == Some(Act("deliver")) <==> role == SellerView && o.status == Shipped
    ensures r == Some(Act("review")) <==> role == BuyerView && o.status == Delivered
    ensures r.Some? && r.value.Link? ==> r.value.path == "/chat/" + (if role == SellerView then o.buyerId else o.sellerId)
  {
    match role
    case SellerView =>
      (match o.status
       case Paid => Some(Act("ship"))
       case Shipped => Some(Act("deliver"))
       case Delivered => Some(Link("/chat/" + o.buyerId))
       case _ => None)
    case BuyerView =>
      (match o.status
       case Delivered => Some(Act("review"))
       case Shipped => Some(Link("/chat/" + o.sellerId))
       case _ => None)
  }

  /** No card ever offers to cancel an order, for either role. */
  lemma NoCancelButton(role: ViewRole, o: Order)
    ensures CardAction(role, o) != Some(Act("cancel"))
  {
  }

  /** The seller's button on a paid order ships it: handed to handleAction
      it marks the order shipped with a fresh code and fetches the list
      again. */
  lemma ShipButtonShips(db: Orders.Db, orders: seq<Order>, o: Order, random: real, now: int,
                        faults: Orders.DeliverFaults, fmt: Transactions.Formats)
    requires 0.0 <= random < 1.0
    requires o.status == Paid && o.id in db.orders
    ensures var b := CardAction(SellerView, o);
            b.Some? && b.value.Act?
            && var r := HandleAction(db, orders, o.id, b.value.action, None, false, random, now, faults, fmt);
               r.db.orders[o.id].status == Shipped && r.db.orders[o.id].otp == Some(Orders.OtpText(random)) && r.refetch
  {
  }

  /** The seller's button on a shipped order, given the code the buyer
      received, delivers it. */
  lemma DeliverButtonDelivers(db: Orders.Db, orders: seq<Order>, id: string, code: string, random: real, now: int,
                              fmt: Transactions.Formats)
    requires 0.0 <= random < 1.0 && id in db.orders
    requires CardAction(SellerView, db.orders[id]) == Some(Act("deliver"))
    requires db.orders[id].otp == Some(code) && code != "" && Trim(code) == code
    requires db.orders[id].sellerId in db.profiles
    ensures var r := HandleAction(db, orders, id, "deliver", Some(code), false, random, now, Orders.NoFaults, fmt);
            id in r.db.orders && r.db.orders[id].status == Delivered && r.alert == Some(DeliveredAlert)
  {
    DeliverSucceeds(db, id, code, fmt);
    DeliverHandled(db, orders, id, code, random, now, fmt);
  }

  /** handleAction passes a successful delivery on as the delivered alert. */
  lemma DeliverHandled(db: Orders.Db, orders: seq<Order>, id: string, code: string, random: real, now: int,
                       fmt: Transactions.Formats)
    requires 0.0 <= random < 1.0 && code != ""
    requires var d := Orders.DeliverOrder(db, id, code, Orders.NoFaults, fmt);
             d.error.None? && id in d.db.orders && d.db.orders[id].status == Delivered
    ensures var r := HandleAction(db, orders, id, "deliver", Some(code), false, random, now, Orders.NoFaults, fmt);
            id in r.db.orders && r.db.orders[id].status == Delivered && r.alert == Some(DeliveredAlert)
  {
    DeliverOutcome(HandleAction(db, orders, id, "deliver", Some(code), false, random, now, Orders.NoFaults, fmt),
                   Orders.DeliverOrder(db, id, code, Orders.NoFaults, fmt), id);
  }

  lemma DeliverOutcome(r: ActionOutcome, d: Orders.Outcome, id: string)
    requires r.db == d.db && (r.alert == Some(DeliveredAlert) <==> d.error.None?)
    requires d.error.None? && id in d.db.orders && d.db.orders[id].status == Delivered
    ensures id in r.db.orders && r.db.orders[id].status == Delivered && r.alert == Some(DeliveredAlert)
  {
  }

  /** The right code delivers an order whose seller has a profile. */
  lemma DeliverSucceeds(db: Orders.Db, id: string, code: string, fmt: Transactions.Formats)
    requires id in db.orders && db.orders[id].otp == Some(code)
    requires Trim(code) == code && db.orders[id].sellerId in db.profiles
    ensures var d := Orders.DeliverOrder(db, id, code, Orders.NoFaults, fmt);
            d.error.None? && id in d.db.orders && d.db.orders[id].status == Delivered
  {
  }

  /** The day a timestamp falls on, for a time zone `offset` milliseconds
      ahead of UTC. */
  function DayOf(t: int, offset: int): int {
    (t + offset) / Day
  }

  datatype DateText = Today | Yesterday | DaysAgo(n: nat) | LongDate(text: string)

  /** formatDate: "Aujourd'hui", "Hier", "Il y a N jours" within a week, else
      the locale date `longDate`. */
  function FormatDate(date: int, now: int, offset: int, longDate: string): (r: DateText)
    ensures r == Today <==> DayOf(date, offset) == DayOf(now, offset)
    ensures r == Yesterday <==> DayOf(date, offset) == DayOf(now, offset) - 1
    ensures r.DaysAgo? ==> r.n < 7 && r.n * Day <= (if now >= date then now - date else date - now)
    ensures r.LongDate? ==> r.text == longDate && (if now >= date then now - date else date - now) >= 7 * Day
  {
    if DayOf(date, offset) == DayOf(now, offset) then Today
    else if DayOf(date, offset) == DayOf(now, offset) - 1 then Yesterday
    else
      var diff := if now >= date then now - date else date - now;
      var days := diff / Day;
      if days < 7 then DaysAgo(days) else LongDate(longDate)
  }

  /** A past date two or more calendar days back is at least one whole day
      old, so "Il y a N jours" never reads "0". */
  lemma PastDaysAgoPositive(date: int, now: int, offset: int, longDate: string)
    requires date <= now
    ensures var r := FormatDate(date, now, offset, longDate);
            r.DaysAgo? ==> r.n >= 1
  {
    var r := FormatDate(date, now, offset, longDate);
    if r.DaysAgo? {
      var a, b := DayOf(date, offset), DayOf(now, offset);
      assert a * Day <= date + offset < (a + 1) * Day;
      assert b * Day <= now + offset < (b + 1) * Day;
      assert a < b - 1;
      assert (a + 1) * Day <= (b - 1) * Day;
      assert now - date >= Day;
    }
  }

  // ---- OrderDetailsModal ---------------------------------------------------------------

  /** One step of the timeline. */
  datatype Step = Step(key: Status, caption: string, done: bool, cancelled: bool)

  /** getStatusSteps. */
  function StatusSteps(st: Status): (r: seq<Step>)
    ensures st == Cancelled ==> |r| == 2 && r[0].key == Pending && r[1].key == Cancelled && r[1].cancelled
    ensures st != Cancelled ==> |r| == 4 && r[0].key == Pending && r[1].key == Paid && r[2].key == Shipped
                                && r[3].key == Delivered
    ensures r[0].done
    ensures forall i, j :: 0 <= i < j < |r| && r[j].done ==> r[i].done
    ensures st == Cancelled ==> forall i :: 0 <= i < |r| ==> r[i].done
  {
    if st == Cancelled then
      [Step(Pending, "Commande cr\U{00E9}\U{00E9}e", true, false), Step(Cancelled, "Commande annul\U{00E9}e", true, true)]
    else
      [Step(Pending, "Commande cr\U{00E9}\U{00E9}e", true, false),
       Step(Paid, "Paiement confirm\U{00E9}", st in {Paid, Shipped, Delivered}, false),
       Step(Shipped, "Exp\U{00E9}di\U{00E9}", st in {Shipped, Delivered}, false),
       Step(Delivered, "Livr\U{00E9}", st == Delivered, false)]
  }

  /** How far along the `pending → paid → shipped → delivered` path an order is. */
  function Progress(st: Status): nat {
    match st
    case Paid => 2
    case Shipped => 3
    case Delivered => 4
    case _ => 1
  }

  /** Outside cancellation, the timeline ticks exactly the steps reached:
      step `i` is done iff the order has progressed past it. */
  lemma StepsTrackProgress(st: Status)
    requires st != Cancelled
    ensures forall i :: 0 <= i < |StatusSteps(st)| ==> (StatusSteps(st)[i].done <==> i < Progress(st))
  {
  }

  /** Shipping an order ticks its "Expédié" step. */
  lemma ShippingTicksTimeline(db: Orders.Db, id: string, random: real, now: int)
    requires 0.0 <= random < 1.0 && id in db.orders
    ensures StatusSteps(Orders.ShipOrder(db, id, random, now).db.orders[id].status)[2].done
  {
  }

  /** The person shown in the contact block. */
  datatype Contact = Contact(name: string, id: string)

  /** contactPerson: a buyer contacts the seller (store name, else full
      name, else "Vendeur"); a seller contacts the buyer (full name, else
      "Client"). `profiles` is the row's `profiles` key. */
  function ContactPerson(role: ViewRole, o: Order, profiles: Option<Names>): (r: Contact)
    ensures role == BuyerView ==> r.id == o.sellerId
    ensures role == SellerView ==> r.id == o.buyerId
    ensures profiles.None? ==> r.name == (if role == BuyerView then "Vendeur" else "Client")
    ensures profiles.Some? && role == BuyerView ==>
              r.name == (if Truthy(profiles.value.storeName) then profiles.value.storeName.value
                         else if Truthy(profiles.value.fullName) then profiles.value.fullName.value
                         else "Vendeur")
    ensures profiles.Some? && role == SellerView ==>
              r.name == (if Truthy(profiles.value.fullName) then profiles.value.fullName.value else "Client")
    ensures r.name != ""
  {
    var names := profiles.GetOr(Names(None, None));
    if role == BuyerView then Contact(OrElse(names.storeName, OrElse(names.fullName, "Vendeur")), o.sellerId)
    else Contact(OrElse(names.fullName, "Client"), o.buyerId)
  }

  /** The amount block: the commission line and the total. */
  datatype Amounts = Amounts(subtotal: real, commissionLine: Option<real>, total: real)

  /** The amount block as written: the total adds the commission to the
      order amount. */
  function AmountsAsWritten(o: Order): (r: Amounts)
    ensures r.commissionLine.Some? <==> o.Commission() > 0.0
    ensures r.total == r.subtotal + o.Commission()
  {
    Amounts(o.amount, if o.Commission() > 0.0 then Some(o.Commission()) else None, o.amount + o.Commission())
  }

  /** The amount block with the total the buyer is charged: the order
      amount, of which the commission is a part. */
  function OrderAmounts(o: Order): (r: Amounts)
    ensures r.commissionLine.Some? <==> o.Commission() > 0.0
    ensures r.total == o.amount
  {
    Amounts(o.amount, if o.Commission() > 0.0 then Some(o.Commission()) else None, o.amount)
  }

  /** As written, an order carrying a commission shows a total above the
      amount the buyer paid: 1000 with a commission of 50 shows 1050. */
  lemma TotalOverstatedAsWritten()
    ensures var o := StoreOrder.(commissionAmount := Some(50.0));
            AmountsAsWritten(o).total == 1050.0 && o.amount == 1000.0
  {
  }

  /** For an order placed from the product page, the corrected total is the
      price times the quantity the buyer paid. */
  lemma TotalIsChargedAmount(db: Orders.Db, p: Orders.NewOrder, newId: string, now: int, insertError: Option<string>)
    requires newId !in db.orders
    requires Orders.CreateOrder(db, p, newId, now, insertError).Ok?
    ensures OrderAmounts(Orders.CreateOrder(db, p, newId, now, insertError).value.1).total == p.amount
  {
  }

  /** What the commission slot of the amount block renders. */
  datatype CommissionSlot = NoLine | StrayZero | CommissionLine(value: real)

  /** The slot as written, `commission_amount && commission_amount > 0 &&
      <row>`: a commission of exactly 0 short-circuits to the number 0,
      which the page prints. */
  function CommissionSlotAsWritten(commission: Option<real>): (r: CommissionSlot)
    ensures r == StrayZero <==> commission == Some(0.0)
    ensures r.CommissionLine? <==> commission.Some? && commission.value > 0.0
    ensures r.CommissionLine? ==> r.value == commission.value
  {
    match commission
    case None => NoLine
    case Some(c) => if c == 0.0 then StrayZero else if c > 0.0 then CommissionLine(c) else NoLine
  }

  /** The slot with a boolean condition: the row for a positive commission,
      nothing otherwise. */
  function CommissionSlotOf(commission: Option<real>): (r: CommissionSlot)
    ensures r != StrayZero
    ensures r.CommissionLine? <==> commission.Some? && commission.value > 0.0
    ensures r.CommissionLine? ==> r.value == commission.value
  {
    if commission.Some? && commission.value > 0.0 then CommissionLine(commission.value) else NoLine
  }

  /** As written, an order with a commission of 0 prints a stray "0" in the
      amount block; the corrected slot prints nothing. */
  lemma StrayZeroAsWritten(o: Order)
    requires o.commissionAmount == Some(0.0)
    ensures CommissionSlotAsWritten(o.commissionAmount) == StrayZero
    ensures CommissionSlotOf(o.commissionAmount) == NoLine
  {
  }

  /** The corrected slot shows the commission line of the amount block,
      and agrees with the as-written slot whenever that one prints no
      stray zero. */
  lemma CommissionSlotMatchesAmounts(o: Order)
    ensures CommissionSlotOf(o.commissionAmount).CommissionLine? <==> OrderAmounts(o).commissionLine.Some?
    ensures OrderAmounts(o).commissionLine.Some? ==>
              CommissionSlotOf(o.commissionAmount).value == OrderAmounts(o).commissionLine.value
    ensures o.commissionAmount != Some(0.0) ==>
              CommissionSlotAsWritten(o.commissionAmount) == CommissionSlotOf(o.commissionAmount)
  {
  }

  /** What the modal shows: the timeline, the amount block with its
      commission slot, and the person to contact. */
  datatype Details = Details(steps: seq<Step>, amounts: Amounts, slot: CommissionSlot, contact: Contact)

  /** The modal as the page draws it: nothing when closed or without an
      order; otherwise the as-written amount block, whose total adds the
      commission, and the as-written commission slot. */
  function DetailsModal(isOpen: bool, order: Option<Order>, role: ViewRole, profiles: Option<Names>): (r: Option<Details>)
    ensures r.None? <==> !isOpen || order.None?
    ensures r.Some? ==> |r.value.steps| >= 2 && r.value.steps[0].done
    ensures r.Some? ==> r.value.amounts.subtotal == order.value.amount
                        && r.value.amounts.total == order.value.amount + order.value.Commission()
    ensures r.Some? ==> (r.value.slot == StrayZero <==> order.value.commissionAmount == Some(0.0))
    ensures r.Some? && role == BuyerView ==> r.value.contact.id == order.value.sellerId
    ensures r.Some? && role == SellerView ==> r.value.contact.id == order.value.buyerId
  {
    if !isOpen || order.None? then None
    else Some(Details(StatusSteps(order.value.status), AmountsAsWritten(order.value),
                      CommissionSlotAsWritten(order.value.commissionAmount),
                      ContactPerson(role, order.value, profiles)))
  }

  /** The modal's total exceeds the amount charged by the commission, and
      apart from a zero commission its slot is the corrected one. */
  lemma DetailsModalAgainstCorrected(isOpen: bool, order: Option<Order>, role: ViewRole, profiles: Option<Names>)
    requires isOpen && order.Some?
    ensures var d := DetailsModal(isOpen, order, role, profiles).value;
            d.amounts.total == OrderAmounts(order.value).total + order.value.Commission()
            && (order.value.commissionAmount != Some(0.0) ==> d.slot == CommissionSlotOf(order.value.commissionAmount))
  {
    CommissionSlotMatchesAmounts(order.value);
  }
}
