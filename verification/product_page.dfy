/** The product page (src/pages/products/ProductDetail.tsx): the quantity
    selector and its clamping to the minimum order quantity (MOQ) and the
    stock, the image gallery's swipes, favourites, sharing, and the
    buy-now path into order creation. */
module ProductPage {
  import opened Wrappers
  import opened Text
  import opened Entities
  import opened Affiliates
  import Uri
  import Catalogue
  import Orders

  // ---- quantity ----------------------------------------------------------

  /** The effect run when the product loads: a quantity below the MOQ is
      raised to it. */
  function ApplyMoq(q: int, moq: int): (r: int)
    ensures r >= moq && r >= q
    ensures q >= moq ==> r == q
  {
    if q < moq then moq else q
  }

  /** The "−" button is disabled at or below the MOQ and when out of stock. */
  predicate MinusDisabled(q: int, p: Product) {
    q <= p.moq || p.stock == Some(0)
  }

  /** A click on "−": `max(moq, q − 1)` unless the button is disabled. */
  function Minus(q: int, p: Product): (r: int)
    ensures r <= q
    ensures q >= p.moq ==> r >= p.moq
    ensures !MinusDisabled(q, p) ==> r == q - 1
  {
    if MinusDisabled(q, p) then q
    else if p.moq > q - 1 then p.moq else q - 1
  }

  /** The "+" button is disabled when the stock is tracked and reached. */
  predicate PlusDisabled(q: int, p: Product) {
    p.stock.Some? && q >= p.stock.value
  }

  /** A click on "+": one more, only below the tracked stock (untracked
      stock is unlimited). */
  function Plus(q: int, p: Product): (r: int)
    ensures r == q || r == q + 1
    ensures r == q + 1 <==> p.stock.None? || q < p.stock.value
    ensures p.stock.Some? && q <= p.stock.value ==> r <= p.stock.value
  {
    if p.stock.None? || q < p.stock.value then q + 1 else q
  }

  /** The typed quantity: `parseInt(text) || moq`, then raised to the MOQ and
      capped by the stock when the stock is positive. */
  function TypedQuantity(text: string, p: Product): (r: int)
    ensures p.stock.Some? && p.stock.value > 0 ==> r <= p.stock.value
    ensures !(p.stock.Some? && p.stock.value > 0 && p.stock.value < p.moq) ==> r >= p.moq
    ensures p.stock.Some? && p.stock.value > 0 && p.stock.value < p.moq ==> r == p.stock.value
    ensures ParseInt(text).None? || ParseInt(text) == Some(0) ==>
              r == (if p.stock.Some? && p.stock.value > 0 && p.stock.value < p.moq then p.stock.value else p.moq)
  {
    var parsed := ParseInt(text);
    var val := if parsed.Some? && parsed.value != 0 then parsed.value else p.moq;
    var raised := if p.moq > val then p.moq else val;
    if p.stock.Some? && p.stock.value > 0 && p.stock.value < raised then p.stock.value else raised
  }

  /** A typed number between the MOQ and the stock is taken as it is. */
  lemma TypedInRange(n: int, p: Product)
    requires n >= 1 && n >= p.moq
    requires p.stock.Some? && p.stock.value > 0 ==> n <= p.stock.value
    ensures TypedQuantity(IntToString(n), p) == n
  {
    ParseIntRoundTrip(n, "");
    assert IntToString(n) + "" == IntToString(n);
  }

  /** The stock caps the quantity only when it is positive (`maxQty`). */
  predicate CapsQuantity(p: Product) {
    p.stock.Some? && p.stock.value > 0
  }

  /** onBlur as written: two independent tests, both on the quantity the
      field held before leaving it, so the second write wins. With an MOQ
      above a positive stock, a quantity below the MOQ is raised to it and
      so above the stock. */
  function BlurAsWritten(q: int, p: Product): (r: int)
    ensures r == q || r == p.moq || (CapsQuantity(p) && r == p.stock.value)
    ensures CapsQuantity(p) && q > p.stock.value ==> r == p.stock.value
    ensures q >= p.moq && !(CapsQuantity(p) && q > p.stock.value) ==> r == q
  {
    var afterMin := if q < p.moq then p.moq else q;
    if CapsQuantity(p) && q > p.stock.value then p.stock.value else afterMin
  }

  /** Typing clamps a quantity to the stock, and leaving the field then
      lifts it above the stock, whenever the MOQ exceeds a positive stock. */
  lemma BlurLiftsAboveStockAsWritten(text: string, p: Product)
    requires CapsQuantity(p) && p.stock.value < p.moq
    ensures TypedQuantity(text, p) == p.stock.value
    ensures BlurAsWritten(TypedQuantity(text, p), p) == p.moq > p.stock.value
  {
  }

  /** Leaving the field, as evidently intended: the clamp typing applies,
      raised to the MOQ and then capped by a positive stock. */
  function Blur(q: int, p: Product): (r: int)
    ensures CapsQuantity(p) && (q > p.stock.value || p.moq > p.stock.value) ==> r <= p.stock.value
    ensures !CapsQuantity(p) ==> r >= p.moq
    ensures CapsQuantity(p) ==> r <= p.stock.value
  {
    var q1 := if q < p.moq then p.moq else q;
    if CapsQuantity(p) && q1 > p.stock.value then p.stock.value else q1
  }

  /** Leaving the field with a positive number in it keeps what typing that
      number would have kept. */
  lemma BlurMatchesTyping(q: int, p: Product)
    requires q >= 1
    ensures Blur(q, p) == TypedQuantity(IntToString(q), p)
  {
    var text := IntToString(q);
    assert ParseInt(text) == Some(q) by {
      ParseIntRoundTrip(q, "");
      assert text + "" == text;
    }
    TypedParsed(text, q, p);
  }

  lemma TypedParsed(text: string, q: int, p: Product)
    requires ParseInt(text) == Some(q) && q != 0
    ensures TypedQuantity(text, p) == Blur(q, p)
  {
  }

  /** The two readings of onBlur differ only when the MOQ exceeds a
      positive stock. */
  lemma BlurAsWrittenAgrees(q: int, p: Product)
    requires !(CapsQuantity(p) && p.moq > p.stock.value)
    ensures BlurAsWritten(q, p) == Blur(q, p)
  {
  }

  /** The quantity the selector keeps: at least the MOQ and, when tracked,
      at most the stock. */
  predicate QuantityOk(q: int, p: Product) {
    q >= p.moq && (p.stock.Some? ==> q <= p.stock.value)
  }

  /** Both buttons keep a valid quantity valid. */
  lemma ButtonsKeepQuantityOk(q: int, p: Product)
    requires QuantityOk(q, p)
    ensures QuantityOk(Minus(q, p), p) && QuantityOk(Plus(q, p), p)
  {
  }

  // ---- gallery -----------------------------------------------------------

  const MinSwipeDistance := 50.0

  /** A touch coordinate as the page keeps it: `null` and 0 are both falsy. */
  predicate Touched(x: Option<real>) {
    x.Some? && x.value != 0.0
  }

  /** onTouchEnd: a swipe left of more than 50 pixels shows the next image
      unless on the last one; a swipe right shows the previous one unless on
      the first. A missing touch or image list changes nothing. */
  function Swipe(index: int, touchStart: Option<real>, touchEnd: Option<real>, images: Option<seq<string>>): (r: int)
    ensures -1 <= r - index <= 1
    ensures images.Some? && 0 <= index < |images.value| ==> 0 <= r < |images.value|
    ensures r > index ==> Touched(touchStart) && Touched(touchEnd) && touchStart.value - touchEnd.value > MinSwipeDistance
    ensures r < index ==> Touched(touchStart) && Touched(touchEnd) && touchStart.value - touchEnd.value < -MinSwipeDistance
  {
    if !Touched(touchStart) || !Touched(touchEnd) || images.None? then index
    else
      var distance := touchStart.value - touchEnd.value;
      if distance > MinSwipeDistance && index < |images.value| - 1 then index + 1
      else if distance < -MinSwipeDistance && index > 0 then index - 1
      else index
  }

  /** The first image is reached from any position by enough right swipes. */
  lemma SwipesBackToFirst(index: nat, start: real, images: seq<string>)
    requires start > 0.0
    ensures Swipe(index, Some(start), Some(start + 100.0), Some(images)) == if index > 0 then index - 1 else 0
  {
  }

  // ---- favourites --------------------------------------------------------

  /** The favourites kept in local storage, and the page's heart state. */
  datatype Favourites = Favourites(stored: seq<string>, isFavorite: bool)

  /** Opening a product: the heart shows whether its id is stored. */
  function OpenProduct(stored: seq<string>, id: Option<string>, current: bool): (r: Favourites)
    ensures id.Some? ==> (r.isFavorite <==> id.value in stored)
    ensures id.None? ==> r.isFavorite == current
    ensures r.stored == stored
  {
    if id.Some? then Favourites(stored, id.value in stored) else Favourites(stored, current)
  }

  /** toggleFavorite: without an id nothing happens; a favourite is removed
      everywhere it occurs, another product is appended, and the heart flips. */
  function ToggleFavorite(f: Favourites, id: Option<string>): (r: Favourites)
    ensures id.None? ==> r == f
    ensures id.Some? ==> r.isFavorite == !f.isFavorite
    ensures id.Some? && f.isFavorite ==> id.value !in r.stored
    ensures id.Some? && !f.isFavorite ==> r.stored == f.stored + [id.value]
    ensures id.Some? ==> forall x :: x != id.value ==> (x in r.stored <==> x in f.stored)
  {
    if id.None? then f
    else if f.isFavorite then Favourites(Filter(f.stored, (x: string) => x != id.value), false)
    else Favourites(f.stored + [id.value], true)
  }

  /** The heart agrees with the storage after opening the product and
      after each toggle. */
  predicate InSync(f: Favourites, id: string) {
    f.isFavorite <==> id in f.stored
  }

  lemma ToggleKeepsSync(f: Favourites, id: string)
    requires InSync(f, id)
    ensures InSync(ToggleFavorite(f, Some(id)), id)
  {
  }

  // ---- share -------------------------------------------------------------

  /** The URL handleShare shares and the links table after it. */
  datatype Share = Share(url: string, links: seq<AffiliateLink>)

  /** handleShare: an affiliate shares the referral URL and registers the
      promotion (a refusal or an upsert error is ignored); anybody else
      shares the page URL. */
  function HandleShare(role: Option<Role>, userId: Option<string>, origin: string, href: string, productId: string,
                       links: seq<AffiliateLink>, products: map<string, Product>,
                       newId: string, now: int, upsertError: Option<string>): (r: Share)
    requires WellFormed(links) && !HasId(links, newId)
    ensures role == Some(Affiliate) && userId.Some? ==> r.url == AffiliateUrl(origin, productId, userId.value)
    ensures !(role == Some(Affiliate) && userId.Some?) ==> r == Share(href, links)
    ensures role == Some(Affiliate) && userId.Some? && Affiliable(products, productId) && upsertError.None? ==>
              HasPair(r.links, userId.value, productId)
    ensures !Affiliable(products, productId) || upsertError.Some? ==> r.links == links
  {
    if role == Some(Affiliate) && userId.Some? then
      var url := AffiliateUrl(origin, productId, userId.value);
      match RegisterPromotion(links, products, userId.value, productId, newId, now, upsertError)
      case Ok(updated) => Share(url, updated)
      case Err(_) => Share(url, links)
    else Share(href, links)
  }

  // ---- buy now -----------------------------------------------------------

  datatype BuyStep = Ignored | ToAuth(url: string) | Alert(message: string) | OpenCheckout

  const OutOfStockAlert := "D\U{00E9}sol\U{00E9}, ce produit est en rupture de stock."

  function ShortStockAlert(stock: int): string {
    "Stock insuffisant. Seulement " + IntToString(stock) + " unit\U{00E9}(s) disponible(s)."
  }

  /** The login redirect keeping the product page as the return URL. */
  function AuthRedirect(productId: string): string {
    "/auth?returnUrl=" + Uri.EncodeComponent("/product/" + productId)
  }

  /** The fixed part of the return URL: "/product/" escapes to
      "%2Fproduct%2F". */
  lemma ProductPrefixEscaped()
    ensures Uri.EncodeComponent("/product/") == "%2Fproduct%2F"
  {
    var w := "product";
    assert "/product/" == "/" + w + "/";
    Uri.SegmentEscaped(w);
    assert "%2F" + w + "%2F" == "%2Fproduct%2F";
  }

  /** The return URL is the product path with its slashes escaped. */
  lemma AuthRedirectEscapesPath(productId: string)
    ensures AuthRedirect(productId) == "/auth?returnUrl=" + "%2Fproduct%2F" + Uri.EncodeComponent(productId)
  {
    ProductPrefixEscaped();
    Uri.EncodeConcat("/product/", productId);
    Uri.Regroup("/auth?returnUrl=", "%2Fproduct%2F", Uri.EncodeComponent(productId), AuthRedirect(productId),
                "/auth?returnUrl=" + "%2Fproduct%2F");
  }

  /** handleBuyNow: nothing without a product or while a payment is
      starting; a guest goes to the login page; a tracked stock of 0, or
      below the quantity, raises an alert; otherwise checkout opens. */
  function BuyNow(product: Option<Product>, paymentLoading: bool, userId: Option<string>, q: int): (r: BuyStep)
    ensures r == OpenCheckout <==>
              product.Some? && !paymentLoading && userId.Some?
              && (product.value.stock.Some? ==> product.value.stock.value != 0 && q <= product.value.stock.value)
    ensures r.ToAuth? <==> product.Some? && !paymentLoading && userId.None?
    ensures r.ToAuth? ==> r.url == AuthRedirect(product.value.id)
    ensures r.Alert? && product.Some? && product.value.stock == Some(0) ==> r.message == OutOfStockAlert
  {
    if product.None? || paymentLoading then Ignored
    else if userId.None? then ToAuth(AuthRedirect(product.value.id))
    else
      var p := product.value;
      if p.stock.Some? && p.stock.value == 0 then Alert(OutOfStockAlert)
      else if p.stock.Some? && q > p.stock.value then Alert(ShortStockAlert(p.stock.value))
      else OpenCheckout
  }

  /** handleConfirmCheckout: the order sent to createOrder, for `price ×
      quantity`, with the referral id kept in the session (an empty one is
      dropped) and the contact details from the checkout form. */
  function CheckoutOrder(p: Product, buyerId: string, q: int, sessionAffiliate: Option<string>,
                         phone: string, location: string): (r: Orders.NewOrder)
    ensures r.amount == p.price * q as real && r.quantity == q
    ensures r.buyerId == buyerId && r.sellerId == p.sellerId && r.productId == p.id
    ensures r.affiliateId.Some? <==> Truthy(sessionAffiliate)
    ensures r.buyerPhone == Some(phone) && r.deliveryLocation == Some(location)
  {
    Orders.NewOrder(buyerId, p.sellerId, p.id,
                    if Truthy(sessionAffiliate) then sessionAffiliate else None,
                    p.price * q as real, q, Some("Achat direct depuis la fiche produit"),
                    Some(phone), Some(location), None, None)
  }

  /** When the page opens checkout, the order it then sends passes the
      service's stock check, as long as the stock has not moved meanwhile. */
  lemma CheckoutPassesStockCheck(db: Orders.Db, p: Product, userId: string, q: int,
                                 sessionAffiliate: Option<string>, phone: string, location: string,
                                 newId: string, now: int, insertError: Option<string>)
    requires newId !in db.orders
    requires p.id in db.products && db.products[p.id].stock == p.stock
    requires BuyNow(Some(p), false, Some(userId), q) == OpenCheckout
    ensures Orders.CreateOrder(db, CheckoutOrder(p, userId, q, sessionAffiliate, phone, location), newId, now, insertError).Ok?
            <==> insertError.None?
  {
  }

  /** The discount shown next to the price, when the original price is set
      and above the price. */
  function PageDiscount(p: Product): (r: Option<int>)
    ensures r.Some? <==> Catalogue.IsPromo(p)
    ensures r.Some? && p.price >= 0.0 ==> 0 <= r.value <= 100
  {
    if Catalogue.IsPromo(p) then Some(Catalogue.DiscountPercent(p.originalPrice.value, p.price)) else None
  }
}
