/** The seller's pages: the dashboard (src/pages/seller/SellerDashboard.tsx),
    the product editor (src/pages/seller/EditProduct.tsx) and the new-product
    form (src/pages/seller/AddProduct.tsx). */
module Seller {
  import opened Wrappers
  import opened Text
  import opened Entities
  import Orders
  import OrderViews
  import Catalogue

  // ---- SellerDashboard -----------------------------------------------------

  /** updateCommission: the rate written, if any. `rate` is the parseFloat
      value of the input, `None` for NaN. */
  function UpdateCommission(rate: Option<real>): (w: Option<real>)
    ensures w.Some? <==> rate.Some? && 0.0 <= rate.value <= 100.0
    ensures w.Some? ==> w == rate
  {
    if rate.None? || rate.value < 0.0 || rate.value > 100.0 then None else rate
  }

  /** A rate the dashboard writes never gives a commission above the order
      amount, nor a negative one. */
  lemma WrittenRateBoundsCommission(rate: Option<real>, amount: real)
    requires UpdateCommission(rate).Some? && amount >= 0.0
    ensures 0.0 <= Orders.CommissionFor(amount, UpdateCommission(rate).value) <= amount
  {
    var r := UpdateCommission(rate).value;
    assert 0.0 <= amount * r by { MulNonNegative(amount, r); }
    assert 0.0 <= amount * (100.0 - r) by { MulNonNegative(amount, 100.0 - r); }
  }

  lemma MulNonNegative(x: real, y: real)
    requires 0.0 <= x && 0.0 <= y
    ensures 0.0 <= x * y
  {
  }

  function OwnedBy(seller: string): Product -> bool {
    (p: Product) => p.sellerId == seller
  }

  /** The product list: the user's own products, in catalogue order. */
  function MyProducts(products: seq<Product>, user: string): (r: seq<Product>)
    ensures forall p :: p in r <==> p in products && p.sellerId == user
    ensures Subsequence(r, products)
    ensures KeepsCounts(r, products, OwnedBy(user))
  {
    Filter(products, OwnedBy(user))
  }

  /** The rows the dashboard reads: the seller's delivered orders. */
  function DeliveredSales(orders: seq<Order>, seller: string): (r: seq<Order>)
    ensures forall o :: o in r <==> o in orders && o.sellerId == seller && o.status == Delivered
    ensures |r| <= |orders|
    ensures Subsequence(r, orders)
    ensures KeepsCounts(r, orders, (o: Order) => o.sellerId == seller && o.status == Delivered)
  {
    Filter(orders, (o: Order) => o.sellerId == seller && o.status == Delivered)
  }

  function SoldBy(seller: string): Order -> bool {
    (o: Order) => o.sellerId == seller
  }

  function CommissionOf(o: Order): real {
    o.Commission()
  }

  /** The dashboard's figures. */
  datatype DashboardStats = DashboardStats(totalSales: real, orderCount: nat, activityPercent: int,
                                           totalCommissions: real, averageRating: real,
                                           totalReviews: int, totalSalesCount: int)

  /** The rating figures of the seller's profile, each `|| 0`. */
  datatype RatingFigures = RatingFigures(averageRating: Option<real>, totalReviews: Option<int>,
                                         totalSalesCount: Option<int>)

  function IntOrZero(x: Option<int>): (r: int)
    ensures x.Some? ==> r == x.value
    ensures x.None? ==> r == 0
  {
    if x.Some? then x.value else 0
  }

  /** The figures from the delivered rows: totals of amounts and of
      commissions (missing as 0), their count, and an activity of 100%
      as soon as one sale is delivered. */
  function Stats(rows: seq<Order>, f: Option<RatingFigures>): (r: DashboardStats)
    ensures r.orderCount == |rows|
    ensures r.activityPercent == 100 <==> rows != []
    ensures r.activityPercent == 0 <==> rows == []
    ensures r.totalSales == Sum(rows, OrderViews.AmountOf) && r.totalCommissions == Sum(rows, CommissionOf)
  {
    var g := f.GetOr(RatingFigures(None, None, None));
    DashboardStats(Sum(rows, OrderViews.AmountOf), |rows|, if |rows| > 0 then 100 else 0,
                   Sum(rows, CommissionOf), OrZero(g.averageRating), IntOrZero(g.totalReviews),
                   IntOrZero(g.totalSalesCount))
  }

  /** The dashboard's figures once its queries answer: recomputed from the
      seller's delivered orders when the orders query returns rows without
      error (`orders`), and left as they were otherwise. */
  function RefreshStats(prev: DashboardStats, orders: Option<seq<Order>>, seller: string,
                        f: Option<RatingFigures>): (r: DashboardStats)
    ensures orders.None? ==> r == prev
    ensures orders.Some? ==>
              && r.totalSales == OrderViews.DeliveredRevenue(Filter(orders.value, SoldBy(seller)))
              && (r.activityPercent == 100 <==>
                    exists o :: o in orders.value && o.sellerId == seller && o.status == Delivered)
  {
    if orders.None? then prev
    else
      var rows := DeliveredSales(orders.value, seller);
      DashboardMatchesOrdersList(orders.value, seller);
      assert rows != [] ==> rows[0] in rows;
      Stats(rows, f)
  }

  /** The dashboard's sales total is the delivered revenue the orders list
      shows for the same seller. */
  lemma {:induction false} DashboardMatchesOrdersList(orders: seq<Order>, seller: string)
    ensures Sum(DeliveredSales(orders, seller), OrderViews.AmountOf)
            == OrderViews.DeliveredRevenue(Filter(orders, SoldBy(seller)))
    decreases |orders|
  {
    if orders != [] {
      DashboardMatchesOrdersList(orders[1..], seller);
      var own := SoldBy(seller);
      var rest := Filter(orders[1..], own);
      if own(orders[0]) {
        assert Filter(orders, own) == [orders[0]] + rest;
        assert ([orders[0]] + rest)[1..] == rest;
      } else {
        assert Filter(orders, own) == rest;
      }
      var sold := DeliveredSales(orders[1..], seller);
      if orders[0].sellerId == seller && orders[0].status == Delivered {
        assert DeliveredSales(orders, seller) == [orders[0]] + sold;
        assert ([orders[0]] + sold)[1..] == sold;
      } else {
        assert DeliveredSales(orders, seller) == sold;
      }
    }
  }

  // ---- EditProduct ---------------------------------------------------------

  /** The form's fields as typed. The commission input is held as its
      parseFloat value (`None` for NaN). */
  datatype ProductForm = ProductForm(
    name: string, description: string, price: string, originalPrice: string,
    moq: string, stock: string, affiliate: bool, commission: Option<real>,
    category: string, city: string)

  datatype EditAlert = NotFound | NotYours | KeepAnImage | UpdateFailed(message: string)

  function EditAlertText(a: EditAlert): string {
    match a
    case NotFound => "Produit introuvable."
    case NotYours => "Vous n'êtes pas autorisé à modifier ce produit."
    case KeepAnImage => "Veuillez conserver au moins une image."
    case UpdateFailed(m) => if m != "" then m else "Une erreur est survenue lors de la mise à jour."
  }

  /** The editor's state after loading: an error, or the filled form with
      its three image previews. */
  datatype EditLoad = LoadError(alert: EditAlert) | Editing(form: ProductForm, previews: seq<Option<string>>)

  /** `(images_url || [image_url])` padded with nulls and cut to three. */
  function Previews(p: Product): (r: seq<Option<string>>)
    ensures |r| == 3
    ensures p.imagesUrl.Some? ==> forall i :: 0 <= i < 3 ==>
              r[i] == if i < |p.imagesUrl.value| then Some(p.imagesUrl.value[i]) else None
    ensures p.imagesUrl.None? ==> r == [p.imageUrl, None, None]
  {
    var base := if p.imagesUrl.Some? then seq(|p.imagesUrl.value|, i requires 0 <= i < |p.imagesUrl.value| => Some(p.imagesUrl.value[i]))
                else [p.imageUrl];
    seq(3, i requires 0 <= i < 3 => if i < |base| then base[i] else None)
  }

  /** The form filled from a product, with the commission as written:
      `(default_commission || 10)`. `show` is the number-to-text
      conversion of the price fields. */
  function FormOfAsWritten(p: Product, show: real -> string): (f: ProductForm)
    ensures f.commission == Some(if p.defaultCommission.Some? && p.defaultCommission.value != 0.0
                                 then p.defaultCommission.value else 10.0)
  {
    FormWith(p, show, if p.defaultCommission.Some? && p.defaultCommission.value != 0.0
                      then p.defaultCommission.value else 10.0)
  }

  /** The form filled from a product, with 10 only for a missing commission
      (`?? 10`): a stored 0 stays 0. */
  function FormOf(p: Product, show: real -> string): (f: ProductForm)
    ensures f.commission == Some(p.defaultCommission.GetOr(10.0))
    ensures f.name == p.name && f.affiliate == p.affiliateEnabled
    ensures f.category == OrElse(p.categoryId, "") && f.moq == IntToString(p.moq)
  {
    FormWith(p, show, p.defaultCommission.GetOr(10.0))
  }

  function FormWith(p: Product, show: real -> string, commission: real): ProductForm {
    ProductForm(p.name, OrElse(p.description, ""), show(p.price),
                if p.originalPrice.Some? then show(p.originalPrice.value) else "",
                IntToString(p.moq), if p.stock.Some? then IntToString(p.stock.value) else "",
                p.affiliateEnabled, Some(commission), OrElse(p.categoryId, ""), OrElse(p.cityId, ""))
  }

  /** fetchProductData: a missing product or one of another seller fills
      nothing. */
  function LoadEdit(found: Option<Product>, user: Option<string>, show: real -> string): (r: EditLoad)
    ensures found.None? ==> r == LoadError(NotFound)
    ensures found.Some? && user != Some(found.value.sellerId) ==> r == LoadError(NotYours)
    ensures r.Editing? <==> found.Some? && user == Some(found.value.sellerId)
    ensures r.Editing? ==> r.form == FormOf(found.value, show) && r.previews == Previews(found.value)
  {
    match found
    case None => LoadError(NotFound)
    case Some(p) =>
      if user != Some(p.sellerId) then LoadError(NotYours) else Editing(FormOf(p, show), Previews(p))
  }

  /** handleImageChange: the chosen slot takes the new value, the others
      keep theirs. */
  function ReplaceSlot<T>(slots: seq<T>, i: nat, x: T): (r: seq<T>)
    requires i < |slots|
    ensures |r| == |slots| && r[i] == x
    ensures forall j :: 0 <= j < |slots| && j != i ==> r[j] == slots[j]
  {
    slots[i := x]
  }

  /** A preview kept as is: an existing absolute URL. */
  predicate KeptPreview(p: Option<string>) {
    Truthy(p) && StartsWith(p.value, "http")
  }

  /** The final image list, slot by slot: the upload when a new file was
      chosen, otherwise the preview when it is an absolute URL. An upload
      failure stops the submit with its message. */
  function FinalUrls(chosen: seq<bool>, uploads: seq<Result<string>>, previews: seq<Option<string>>)
    : (r: Result<seq<string>>)
    requires |chosen| == |uploads| == |previews|
    ensures r.Ok? ==> |r.value| <= |chosen|
    ensures r.Ok? <==> forall i :: 0 <= i < |chosen| && chosen[i] ==> uploads[i].Ok?
    ensures r.Ok? ==> (r.value == [] <==> forall i :: 0 <= i < |chosen| ==> !chosen[i] && !KeptPreview(previews[i]))
    ensures r.Ok? ==> forall u :: u in r.value ==>
              exists i :: 0 <= i < |chosen| && (if chosen[i] then uploads[i] == Ok(u) else previews[i] == Some(u))
    decreases |chosen|
  {
    if chosen == [] then Ok([])
    else if chosen[0] && uploads[0].Err? then Err(uploads[0].msg)
    else
      var rest := FinalUrls(chosen[1..], uploads[1..], previews[1..]);
      if rest.Err? then rest
      else
        var head := if chosen[0] then [uploads[0].value] else if KeptPreview(previews[0]) then [previews[0].value] else [];
        assert forall u :: u in rest.value ==>
                 exists i :: 0 <= i < |chosen| && (if chosen[i] then uploads[i] == Ok(u) else previews[i] == Some(u)) by {
          forall u | u in rest.value
            ensures exists i :: 0 <= i < |chosen| && (if chosen[i] then uploads[i] == Ok(u) else previews[i] == Some(u))
          {
            var i :| 0 <= i < |chosen| - 1 && (if chosen[1..][i] then uploads[1..][i] == Ok(u) else previews[1..][i] == Some(u));
            assert chosen[i + 1] == chosen[1..][i];
          }
        }
        Ok(head + rest.value)
  }

  /** The update written. Numbers are parseInt values (`None` for NaN,
      which is written as null). */
  datatype ProductUpdate = ProductUpdate(
    name: string, description: string, price: Option<int>, originalPrice: Option<int>,
    moq: Option<int>, stock: Option<int>, affiliate: bool, commission: Option<real>,
    imageUrl: string, imagesUrl: seq<string>, category: Option<string>, city: Option<string>)

  /** The update from the form and the final image list: an empty field
      for the original price, the stock, the category or the city is
      written as null, and the commission is 0 when affiliation is off. */
  function UpdateOf(f: ProductForm, urls: seq<string>): (u: ProductUpdate)
    requires urls != []
    ensures u.imageUrl == urls[0] && u.imagesUrl == urls
    ensures f.originalPrice == "" ==> u.originalPrice.None?
    ensures f.stock == "" ==> u.stock.None?
    ensures u.commission == if f.affiliate then f.commission else Some(0.0)
    ensures u.category.None? <==> f.category == ""
    ensures u.city.None? <==> f.city == ""
    ensures u.category.Some? ==> u.category.value == f.category
  {
    ProductUpdate(f.name, f.description, ParseInt(f.price),
                  if f.originalPrice != "" then ParseInt(f.originalPrice) else None,
                  ParseInt(f.moq), if f.stock != "" then ParseInt(f.stock) else None,
                  f.affiliate, if f.affiliate then f.commission else Some(0.0),
                  urls[0], urls, EmptyToNull(f.category), EmptyToNull(f.city))
  }

  /** The result of a submit. */
  datatype EditSubmit = EditIgnored | EditRefused(alert: EditAlert) | EditSaved(update: ProductUpdate)

  /** handleSubmit: nothing without a user or a product id; otherwise the
      images, the one-image rule, then the write. */
  function SubmitEdit(signedIn: bool, f: ProductForm, chosen: seq<bool>, uploads: seq<Result<string>>,
                      previews: seq<Option<string>>, dbError: Option<string>): (r: EditSubmit)
    requires |chosen| == |uploads| == |previews|
    ensures !signedIn <==> r == EditIgnored
    ensures r.EditSaved? <==> (signedIn && FinalUrls(chosen, uploads, previews).Ok?
                               && FinalUrls(chosen, uploads, previews).value != [] && dbError.None?)
    ensures r.EditSaved? ==> r.update == UpdateOf(f, FinalUrls(chosen, uploads, previews).value)
    ensures signedIn && FinalUrls(chosen, uploads, previews) == Ok([]) ==> r == EditRefused(KeepAnImage)
  {
    if !signedIn then EditIgnored
    else match FinalUrls(chosen, uploads, previews)
      case Err(m) => EditRefused(UpdateFailed(m))
      case Ok(urls) =>
        if urls == [] then EditRefused(KeepAnImage)
        else if dbError.Some? then EditRefused(UpdateFailed(dbError.value))
        else EditSaved(UpdateOf(f, urls))
  }

  /** The update a submit of the untouched form writes for a product. */
  function UntouchedUpdate(p: Product, form: ProductForm): (r: EditSubmit)
  {
    SubmitEdit(true, form, [false, false, false], [Ok(""), Ok(""), Ok("")], Previews(p), None)
  }

  /** The product's images as the editor keeps them: its absolute URLs,
      at most three. */
  predicate AbsoluteImages(p: Product) {
    && p.imagesUrl.Some? && 1 <= |p.imagesUrl.value| <= 3
    && forall i :: 0 <= i < |p.imagesUrl.value| ==> StartsWith(p.imagesUrl.value[i], "http")
  }

  /** As written, saving the untouched form of an affiliate product whose
      commission is 0 writes a commission of 10. */
  lemma ZeroCommissionBecomesTenAsWritten(p: Product, show: real -> string)
    requires AbsoluteImages(p) && p.affiliateEnabled && p.defaultCommission == Some(0.0)
    ensures UntouchedUpdate(p, FormOfAsWritten(p, show)).EditSaved?
    ensures UntouchedUpdate(p, FormOfAsWritten(p, show)).update.commission == Some(10.0)
  {
    UntouchedKeepsImages(p, FormOfAsWritten(p, show));
  }

  /** Saving the untouched form keeps the images, the name, the affiliation
      and the commission (10 only when none was stored), the category and
      the city. */
  lemma UntouchedSaveKeepsProduct(p: Product, show: real -> string)
    requires AbsoluteImages(p)
    requires p.categoryId != Some("") && p.cityId != Some("")
    ensures var r := UntouchedUpdate(p, FormOf(p, show));
            && r.EditSaved?
            && r.update.imagesUrl == p.imagesUrl.value && r.update.name == p.name
            && r.update.affiliate == p.affiliateEnabled
            && r.update.commission == (if p.affiliateEnabled then Some(p.defaultCommission.GetOr(10.0)) else Some(0.0))
            && r.update.category == p.categoryId && r.update.city == p.cityId
            && r.update.moq == Some(p.moq)
  {
    UntouchedKeepsImages(p, FormOf(p, show));
    ParseIntRoundTrip(p.moq, "");
    assert IntToString(p.moq) + "" == IntToString(p.moq);
  }

  lemma UntouchedKeepsImages(p: Product, form: ProductForm)
    requires AbsoluteImages(p)
    ensures FinalUrls([false, false, false], [Ok(""), Ok(""), Ok("")], Previews(p)) == Ok(p.imagesUrl.value)
  {
    UntouchedSlots([false, false, false], [Ok(""), Ok(""), Ok("")], Previews(p), p.imagesUrl.value);
  }

  /** Slots left untouched, holding the given absolute URLs first and
      nothing after them, give back those URLs. */
  lemma {:induction false} UntouchedSlots(chosen: seq<bool>, uploads: seq<Result<string>>,
                                          previews: seq<Option<string>>, urls: seq<string>)
    requires |chosen| == |uploads| == |previews| && |urls| <= |previews|
    requires forall i :: 0 <= i < |chosen| ==> !chosen[i]
    requires forall i :: 0 <= i < |urls| ==> previews[i] == Some(urls[i]) && StartsWith(urls[i], "http")
    requires forall i :: |urls| <= i < |previews| ==> previews[i].None?
    ensures FinalUrls(chosen, uploads, previews) == Ok(urls)
    decreases |chosen|
  {
    if chosen != [] {
      if urls == [] {
        UntouchedSlots(chosen[1..], uploads[1..], previews[1..], []);
      } else {
        assert forall i :: 0 <= i < |urls| - 1 ==> previews[1..][i] == previews[i + 1] && urls[1..][i] == urls[i + 1];
        UntouchedSlots(chosen[1..], uploads[1..], previews[1..], urls[1..]);
        assert KeptPreview(previews[0]) by { assert StartsWith(urls[0], "http"); }
        assert [urls[0]] + urls[1..] == urls;
      }
    }
  }

  // ---- AddProduct ----------------------------------------------------------

  /** The chosen files, in slot order. */
  function ActiveImages<T(!new)>(slots: seq<Option<T>>): (r: seq<T>)
    ensures |r| <= |slots|
    ensures forall x :: x in r <==> Some(x) in slots
    ensures r == [] <==> forall i :: 0 <= i < |slots| ==> slots[i].None?
  {
    if slots == [] then []
    else
      assert forall o :: o in slots <==> o == slots[0] || o in slots[1..];
      (if slots[0].Some? then [slots[0].value] else []) + ActiveImages(slots[1..])
  }

  /** The row inserted. */
  datatype NewProduct = NewProduct(
    sellerId: string, name: string, description: string, price: Option<int>, originalPrice: Option<int>,
    moq: Option<int>, affiliate: bool, commission: Option<real>, imageUrl: string, imagesUrl: seq<string>,
    category: Option<string>, city: Option<string>)

  datatype AddAlert = FillEverything | CreateFailed(message: string)

  function AddAlertText(a: AddAlert): string {
    match a
    case FillEverything => "Veuillez remplir tous les champs et ajouter au moins une image."
    case CreateFailed(m) => if m != "" then m else "Une erreur est survenue lors de la création du produit."
  }

  datatype AddSubmit = AddRefused(alert: AddAlert) | Added(row: NewProduct)

  /** handleSubmit: refused without a user or an image; the uploads (all
      at once, `Err` when one fails) give one URL per chosen file. */
  function SubmitAdd<T(!new)>(user: Option<string>, f: ProductForm, slots: seq<Option<T>>,
                        uploads: Result<seq<string>>, dbError: Option<string>): (r: AddSubmit)
    requires uploads.Ok? ==> |uploads.value| == |ActiveImages(slots)|
    ensures user.None? || ActiveImages(slots) == [] ==> r == AddRefused(FillEverything)
    ensures r.Added? <==> user.Some? && ActiveImages(slots) != [] && uploads.Ok? && dbError.None?
    ensures r.Added? ==> var row := r.row;
              && row.sellerId == user.value && row.imagesUrl == uploads.value
              && row.imageUrl == uploads.value[0] && |row.imagesUrl| == |ActiveImages(slots)|
              && row.commission == (if f.affiliate then f.commission else Some(0.0))
              && (f.originalPrice == "" ==> row.originalPrice.None?)
              && (row.category.None? <==> f.category == "")
  {
    var active := ActiveImages(slots);
    if user.None? || active == [] then AddRefused(FillEverything)
    else match uploads
      case Err(m) => AddRefused(CreateFailed(m))
      case Ok(urls) =>
        if dbError.Some? then AddRefused(CreateFailed(dbError.value))
        else
          Added(NewProduct(user.value, f.name, f.description, ParseInt(f.price),
                           if f.originalPrice != "" then ParseInt(f.originalPrice) else None,
                           ParseInt(f.moq), f.affiliate, if f.affiliate then f.commission else Some(0.0),
                           urls[0], urls, EmptyToNull(f.category), EmptyToNull(f.city)))
  }

  /** A product just added opens in the editor with its images in the
      first slots, and saving it untouched keeps them. */
  lemma AddedImagesReopen(urls: seq<string>, p: Product)
    requires 1 <= |urls| <= 3 && forall i :: 0 <= i < |urls| ==> StartsWith(urls[i], "http")
    requires p.imagesUrl == Some(urls)
    ensures forall i :: 0 <= i < 3 ==> Previews(p)[i] == if i < |urls| then Some(urls[i]) else None
    ensures FinalUrls([false, false, false], [Ok(""), Ok(""), Ok("")], Previews(p)) == Ok(urls)
  {
    UntouchedKeepsImages(p, ProductForm("", "", "", "", "", "", false, None, "", ""));
  }

  /** The discount preview: shown when the original price text is set and
      its value exceeds the price (an empty price counts as 0). */
  function AddDiscountPreview(originalText: string, orig: Option<real>, price: Option<real>)
    : (r: Option<Catalogue.CardPercent>)
    ensures r.Some? <==> Catalogue.StruckPriceShown(Some(originalText), orig, price)
    ensures r.Some? ==> r.value == Catalogue.CardDiscount(Some(originalText), orig, price)
    ensures r.Some? && price.Some? && price.value >= 0.0 ==> r.value.Percent? && 0 <= r.value.n <= 100
  {
    if Catalogue.StruckPriceShown(Some(originalText), orig, price)
    then Some(Catalogue.CardDiscount(Some(originalText), orig, price)) else None
  }
}
