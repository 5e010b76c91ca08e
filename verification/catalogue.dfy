/** The home catalogue (src/pages/home/Home.tsx) and the product card
    (src/components/products/ProductCard.tsx): category selection, the
    search / category / badge filters, the sort options, and the card's
    discount badge and image URL. */
module Catalogue {
  import opened Wrappers
  import opened Text
  import opened Sorting
  import opened Entities

  // ---- category selection ------------------------------------------------

  /** handleCategoryToggle: removes every occurrence of a selected category,
      appends an unselected one. */
  function ToggleCategory(selected: seq<string>, categoryId: string): (r: seq<string>)
    ensures categoryId in r <==> categoryId !in selected
    ensures forall c :: c != categoryId ==> (c in r <==> c in selected)
  {
    if categoryId in selected then Filter(selected, (c: string) => c != categoryId)
    else selected + [categoryId]
  }

  /** Toggling a category twice restores the selection as a set, and exactly
      when the category was not selected. */
  lemma ToggleTwice(selected: seq<string>, categoryId: string)
    ensures (set c | c in ToggleCategory(ToggleCategory(selected, categoryId), categoryId)) == (set c | c in selected)
    ensures categoryId !in selected ==> ToggleCategory(ToggleCategory(selected, categoryId), categoryId) == selected
  {
    if categoryId !in selected {
      FilterAllKept(selected, (c: string) => c != categoryId);
      assert (selected + [categoryId])[..|selected|] == selected;
      FilterDropLast(selected, categoryId);
    }
  }

  lemma {:induction false} FilterDropLast(s: seq<string>, c: string)
    requires c !in s
    ensures Filter(s + [c], (x: string) => x != c) == s
    decreases |s|
  {
    if s == [] {
      assert [c][1..] == [];
    } else {
      assert (s + [c])[1..] == s[1..] + [c];
      FilterDropLast(s[1..], c);
    }
  }

  // ---- filters -----------------------------------------------------------

  /** The five badge toggles. */
  datatype Badges = Badges(verifiedOnly: bool, newOnly: bool, affiliateOnly: bool, moqOne: bool, promoOnly: bool) {
    predicate Any() {
      verifiedOnly || newOnly || affiliateOnly || moqOne || promoOnly
    }
  }

  const NoBadges := Badges(false, false, false, false, false)

  /** The search applies only when the query is not blank. */
  predicate SearchApplies(query: string) {
    Trim(query) != ""
  }

  /** The lowercased (untrimmed) query occurs in the lowercased name,
      description or seller name; a missing field never matches. */
  predicate MatchesSearch(p: Product, query: string) {
    var q := Lower(query);
    Includes(Lower(p.name), q)
    || (p.description.Some? && Includes(Lower(p.description.value), q))
    || (p.sellerFullName.Some? && Includes(Lower(p.sellerFullName.value), q))
  }

  predicate InCategories(p: Product, selected: seq<string>) {
    Truthy(p.categoryId) && p.categoryId.value in selected
  }

  /** Created strictly after the instant seven days before `now`. */
  predicate IsNew(p: Product, now: int) {
    p.createdAt > now - 7 * Day
  }

  /** `original_price && original_price > price`: a zero original price is falsy. */
  predicate IsPromo(p: Product) {
    p.originalPrice.Some? && p.originalPrice.value != 0.0 && p.originalPrice.value > p.price
  }

  predicate PassesBadges(p: Product, b: Badges, now: int) {
    (b.verifiedOnly ==> p.sellerVerified)
    && (b.newOnly ==> IsNew(p, now))
    && (b.affiliateOnly ==> p.affiliateEnabled)
    && (b.moqOne ==> p.moq == 1)
    && (b.promoOnly ==> IsPromo(p))
  }

  /** All criteria of the catalogue at once. */
  predicate Shown(p: Product, query: string, selected: seq<string>, b: Badges, now: int) {
    (SearchApplies(query) ==> MatchesSearch(p, query))
    && (|selected| > 0 ==> InCategories(p, selected))
    && PassesBadges(p, b, now)
  }

  /** `if (on) results = results.filter(keep)`. */
  function FilterIf(s: seq<Product>, on: bool, keep: Product -> bool): (r: seq<Product>)
    ensures |r| <= |s|
    ensures forall p :: p in r <==> p in s && (on ==> keep(p))
    ensures Subsequence(r, s)
    ensures KeepsCounts(r, s, (p: Product) => on ==> keep(p))
  {
    SubsequenceRefl(s);
    if on then Filter(s, keep) else s
  }

  /** One `if (on) results = results.filter(keep)` of filteredProducts. */
  datatype Step = Step(on: bool, keep: Product -> bool)

  /** `p` passes every step that is switched on. */
  predicate PassesSteps(steps: seq<Step>, p: Product) {
    forall i :: 0 <= i < |steps| ==> (steps[i].on ==> steps[i].keep(p))
  }

  lemma PassesStepsAppend(a: seq<Step>, c: seq<Step>, p: Product)
    ensures PassesSteps(a + c, p) <==> PassesSteps(a, p) && PassesSteps(c, p)
  {
    if PassesSteps(a, p) && PassesSteps(c, p) {
      forall i | 0 <= i < |a + c|
        ensures (a + c)[i].on ==> (a + c)[i].keep(p)
      {
        if i >= |a| {
          assert (a + c)[i] == c[i - |a|];
        }
      }
    }
    if PassesSteps(a + c, p) {
      forall i | 0 <= i < |a|
        ensures a[i].on ==> a[i].keep(p)
      {
        assert (a + c)[i] == a[i];
      }
      forall i | 0 <= i < |c|
        ensures c[i].on ==> c[i].keep(p)
      {
        assert (a + c)[|a| + i] == c[i];
      }
    }
  }

  /** The steps applied in their order, each to what the previous ones left:
      the products passing every step, in their order and with their
      multiplicity. */
  function ApplySteps(s: seq<Product>, steps: seq<Step>): (r: seq<Product>)
    ensures |r| <= |s|
    ensures Subsequence(r, s)
    ensures KeepsCounts(r, s, (p: Product) => PassesSteps(steps, p))
    decreases |steps|
  {
    if steps == [] then
      SubsequenceRefl(s);
      s
    else
      var r1 := FilterIf(s, steps[0].on, steps[0].keep);
      var r := ApplySteps(r1, steps[1..]);
      SubsequenceTrans(r, r1, s);
      assert KeepsCounts(r, s, (p: Product) => PassesSteps(steps, p)) by {
        forall x: Product
          ensures multiset(r)[x] == if PassesSteps(steps, x) then multiset(s)[x] else 0
        {
          assert steps == [steps[0]] + steps[1..];
          PassesStepsAppend([steps[0]], steps[1..], x);
        }
      }
      r
  }

  /** The five badge filters of filteredProducts, in their order. */
  function BadgeSteps(b: Badges, now: int): seq<Step> {
    [ Step(b.verifiedOnly, (p: Product) => p.sellerVerified),
      Step(b.newOnly, (p: Product) => IsNew(p, now)),
      Step(b.affiliateOnly, (p: Product) => p.affiliateEnabled),
      Step(b.moqOne, (p: Product) => p.moq == 1),
      Step(b.promoOnly, (p: Product) => IsPromo(p)) ]
  }

  /** The search step, the category step, then the badge steps. */
  function CatalogueSteps(query: string, selected: seq<string>, b: Badges, now: int): seq<Step> {
    [ Step(SearchApplies(query), (p: Product) => MatchesSearch(p, query)),
      Step(|selected| > 0, (p: Product) => InCategories(p, selected)) ]
    + BadgeSteps(b, now)
  }

  /** Passing the badge steps is passing every active badge. */
  lemma BadgeStepsMeaning(b: Badges, now: int, p: Product)
    ensures PassesSteps(BadgeSteps(b, now), p) <==> PassesBadges(p, b, now)
  {
    var bs := BadgeSteps(b, now);
    if PassesBadges(p, b, now) {
      forall i | 0 <= i < |bs|
        ensures bs[i].on ==> bs[i].keep(p)
      {
      }
    }
    if PassesSteps(bs, p) {
      assert bs[0].on ==> bs[0].keep(p);
      assert bs[1].on ==> bs[1].keep(p);
      assert bs[2].on ==> bs[2].keep(p);
      assert bs[3].on ==> bs[3].keep(p);
      assert bs[4].on ==> bs[4].keep(p);
    }
  }

  /** Passing the catalogue's steps is being shown. */
  lemma CatalogueStepsMeaning(query: string, selected: seq<string>, b: Badges, now: int, p: Product)
    ensures PassesSteps(CatalogueSteps(query, selected, b, now), p) <==> Shown(p, query, selected, b, now)
  {
    var front := [ Step(SearchApplies(query), (p: Product) => MatchesSearch(p, query)),
                   Step(|selected| > 0, (p: Product) => InCategories(p, selected)) ];
    PassesStepsAppend(front, BadgeSteps(b, now), p);
    BadgeStepsMeaning(b, now, p);
    if PassesSteps(front, p) {
      assert front[0].on ==> front[0].keep(p);
      assert front[1].on ==> front[1].keep(p);
    }
  }

  /** Steps that are all switched off leave the list as it is. */
  lemma {:induction false} StepsOff(s: seq<Product>, steps: seq<Step>)
    requires forall i :: 0 <= i < |steps| ==> !steps[i].on
    ensures ApplySteps(s, steps) == s
    decreases |steps|
  {
    if steps != [] {
      StepsOff(s, steps[1..]);
    }
  }

  /** With no criterion switched on the filters keep the list as it is. */
  lemma NoStepOn(s: seq<Product>, query: string, selected: seq<string>, b: Badges, now: int)
    requires !SearchApplies(query) && |selected| == 0 && !b.Any()
    ensures FilterProducts(s, query, selected, b, now) == s
  {
    StepsOff(s, CatalogueSteps(query, selected, b, now));
  }

  /** The filter half of filteredProducts: the products shown, in their
      loaded order and each as often as loaded. */
  function FilterProducts(products: seq<Product>, query: string, selected: seq<string>, b: Badges, now: int): (r: seq<Product>)
    ensures |r| <= |products|
    ensures forall p :: p in r <==> p in products && Shown(p, query, selected, b, now)
    ensures Subsequence(r, products)
    ensures KeepsCounts(r, products, (p: Product) => Shown(p, query, selected, b, now))
  {
    var steps := CatalogueSteps(query, selected, b, now);
    var r := ApplySteps(products, steps);
    assert KeepsCounts(r, products, (p: Product) => Shown(p, query, selected, b, now)) by {
      forall x: Product
        ensures multiset(r)[x] == if Shown(x, query, selected, b, now) then multiset(products)[x] else 0
      {
        CatalogueStepsMeaning(query, selected, b, now, x);
      }
    }
    KeepsCountsMembers(r, products, (p: Product) => Shown(p, query, selected, b, now));
    r
  }

  /** The badge filters alone keep the products passing every active badge,
      in order and with their multiplicity. */
  lemma BadgeStepsKeep(s: seq<Product>, b: Badges, now: int)
    ensures Subsequence(ApplySteps(s, BadgeSteps(b, now)), s)
    ensures KeepsCounts(ApplySteps(s, BadgeSteps(b, now)), s, (p: Product) => PassesBadges(p, b, now))
  {
    var r := ApplySteps(s, BadgeSteps(b, now));
    forall x: Product
      ensures multiset(r)[x] == if PassesBadges(x, b, now) then multiset(s)[x] else 0
    {
      BadgeStepsMeaning(b, now, x);
    }
  }

  // ---- sorting -----------------------------------------------------------

  datatype SortOption = Relevance | PriceAsc | PriceDesc | Newest

  function Price(p: Product): real {
    p.price
  }

  function Created(p: Product): real {
    p.createdAt as real
  }

  /** The sort half of filteredProducts. */
  function SortProducts(products: seq<Product>, option: SortOption): (r: seq<Product>)
    ensures multiset(r) == multiset(products)
    ensures option == Relevance ==> r == products
    ensures option == PriceAsc ==> Sorted(r, Price, false)
    ensures option == PriceDesc ==> Sorted(r, Price, true)
    ensures option == Newest ==> Sorted(r, Created, true)
  {
    match option
    case Relevance => products
    case PriceAsc => SortBy(products, Price, false)
    case PriceDesc => SortBy(products, Price, true)
    case Newest => SortBy(products, Created, true)
  }

  /** filteredProducts: the products that pass every active criterion, in
      the chosen order. */
  function Catalogue(products: seq<Product>, query: string, selected: seq<string>, b: Badges,
                     option: SortOption, now: int): (r: seq<Product>)
    ensures forall p :: p in r <==> p in products && Shown(p, query, selected, b, now)
    ensures option == PriceAsc ==> Sorted(r, Price, false)
    ensures option == PriceDesc ==> Sorted(r, Price, true)
    ensures option == Newest ==> Sorted(r, Created, true)
    ensures option == Relevance ==> r == FilterProducts(products, query, selected, b, now)
    ensures KeepsCounts(r, products, (p: Product) => Shown(p, query, selected, b, now))
  {
    var kept := FilterProducts(products, query, selected, b, now);
    KeepsCountsReordered(SortProducts(kept, option), kept, products, (p: Product) => Shown(p, query, selected, b, now));
    var r := SortProducts(kept, option);
    assert forall p :: p in r <==> p in kept by {
      forall p
        ensures p in r <==> p in kept
      {
        assert p in r <==> p in multiset(r);
        assert p in kept <==> p in multiset(kept);
      }
    }
    r
  }

  /** hasActiveFilters: some criterion is set. A blank but non-empty query
      counts as set even though it filters nothing. */
  function HasActiveFilters(query: string, selected: seq<string>, b: Badges): (r: bool)
    ensures r <==> !(query == "" && selected == [] && b == NoBadges)
  {
    query != "" || |selected| > 0 || b.Any()
  }

  /** With no active filter every product is shown, in the original order
      under the relevance sort. */
  lemma InactiveFiltersShowAll(products: seq<Product>, query: string, selected: seq<string>, b: Badges, now: int)
    requires !HasActiveFilters(query, selected, b)
    ensures Catalogue(products, query, selected, b, Relevance, now) == products
  {
    assert Trim(query) == "";
    NoStepOn(products, query, selected, b, now);
  }

  /** The page keeps `products` in state and filteredProducts sorts the
      filtered array in place. When no filter is on, that array is the state
      itself, so a price or date sort reorders the state and a later
      relevance view shows the sorted order. Returns the shown list and the
      state afterwards. */
  function CatalogueAsWritten(state: seq<Product>, query: string, selected: seq<string>, b: Badges,
                              option: SortOption, now: int): (r: (seq<Product>, seq<Product>))
    ensures r.0 == Catalogue(state, query, selected, b, option, now)
    ensures multiset(r.1) == multiset(state)
    ensures SearchApplies(query) || |selected| > 0 || b.Any() ==> r.1 == state
  {
    var shown := Catalogue(state, query, selected, b, option, now);
    if SearchApplies(query) || |selected| > 0 || b.Any() then (shown, state)
    else
      NoStepOn(state, query, selected, b, now);
      (shown, shown)
  }

  function SampleProduct(id: string, price: real): Product {
    Product(id, "s", "p", None, price, None, None, 1, false, None, None, None, 0, None, None, None, false, None)
  }

  /** Sorting by ascending price and then choosing "relevance" again shows
      the price order, not the order the products were loaded in. */
  lemma RelevanceAfterSortAsWritten()
    ensures var loaded := [SampleProduct("a", 2.0), SampleProduct("b", 1.0)];
            var afterSort := CatalogueAsWritten(loaded, "", [], NoBadges, PriceAsc, 0).1;
            CatalogueAsWritten(afterSort, "", [], NoBadges, Relevance, 0).0 != loaded
  {
    var a, b := SampleProduct("a", 2.0), SampleProduct("b", 1.0);
    SortedSample(a, b);
    RelevanceKeepsLoadedOrder([b, a], 0);
  }

  /** The first half of RelevanceAfterSortAsWritten: the ascending sort
      leaves the state in price order. */
  lemma SortedSample(a: Product, b: Product)
    requires a.price > b.price
    ensures CatalogueAsWritten([a, b], "", [], NoBadges, PriceAsc, 0).1 == [b, a]
  {
    InactiveFiltersShowAll([a, b], "", [], NoBadges, 0);
    SortTwo(a, b);
  }

  /** Two products out of price order are swapped by the ascending sort. */
  lemma SortTwo(a: Product, b: Product)
    requires a.price > b.price
    ensures SortBy([a, b], Price, false) == [b, a]
  {
    assert [a, b][..1] == [a];
    assert [a][..0] == [];
    assert SortBy([a], Price, false) == [a];
    assert InsertPos(b, [a], Price, false) == 0;
  }

  /** With the list copied before sorting, the relevance view is the loaded
      order whatever was chosen before: the catalogue is a function of the
      loaded products alone. */
  lemma RelevanceKeepsLoadedOrder(products: seq<Product>, now: int)
    ensures Catalogue(products, "", [], NoBadges, Relevance, now) == products
  {
    InactiveFiltersShowAll(products, "", [], NoBadges, now);
  }

  // ---- product card ------------------------------------------------------

  /** Math.round((orig - price) / orig * 100): the discount in percent. */
  function DiscountPercent(orig: real, price: real): (r: int)
    requires orig != 0.0 && orig > price
    ensures price >= 0.0 ==> 0 <= r <= 100
    ensures orig > 0.0 ==> (r >= 1 <==> 200.0 * (orig - price) >= orig)
    ensures orig < 0.0 ==> r <= 0
  {
    var x := (orig - price) / orig * 100.0;
    assert orig > 0.0 ==> (x >= 0.5 <==> 200.0 * (orig - price) >= orig) && (price >= 0.0 ==> 0.0 <= x <= 100.0) by {
      if orig > 0.0 {
        DiscountBounds(orig, price, x);
      }
    }
    assert orig < 0.0 ==> x < 0.0 by {
      if orig < 0.0 {
        assert x * orig == (orig - price) * 100.0;
        MulSign(x, -orig);
      }
    }
    Round(x)
  }

  lemma DiscountBounds(orig: real, price: real, x: real)
    requires orig > 0.0 && orig > price
    requires x == (orig - price) / orig * 100.0
    ensures x >= 0.5 <==> 200.0 * (orig - price) >= orig
    ensures price >= 0.0 ==> 0.0 <= x <= 100.0
  {
    var d := orig - price;
    assert x * orig == d * 100.0;
    MulSign(x - 0.5, orig);
    assert (x - 0.5) * orig == d * 100.0 - 0.5 * orig;
    MulSign(x, orig);
    var y := x - 100.0;
    MulSign(y, orig);
    assert y * orig == x * orig - 100.0 * orig;
    assert y * orig == -100.0 * price;
  }

  /** The sign of a product with a positive factor. */
  lemma MulSign(a: real, b: real)
    requires b > 0.0
    ensures a >= 0.0 <==> a * b >= 0.0
    ensures a > 0.0 <==> a * b > 0.0
  {
  }

  /** The value of the card's discountPercent: a whole percentage, or
      JavaScript's Infinity when the original price parses as 0 and the
      price is negative. */
  datatype CardPercent = Percent(n: int) | PlusInfinity {
    predicate Positive() {
      PlusInfinity? || n > 0
    }
  }

  /** The card's discountPercent: the rounded discount when the original
      price text is truthy and its value exceeds the price, otherwise 0.
      `orig` and `price` are the parseFloat values, `None` for NaN, with
      which every comparison is false. A truthy text such as "0" can parse
      as 0, and dividing by it gives Infinity. */
  function CardDiscount(originalText: Option<string>, orig: Option<real>, price: Option<real>): (r: CardPercent)
    ensures !StruckPriceShown(originalText, orig, price) ==> r == Percent(0)
    ensures r.PlusInfinity? <==> StruckPriceShown(originalText, orig, price) && orig.value == 0.0
    ensures price.Some? && price.value >= 0.0 ==> r.Percent? && 0 <= r.n <= 100
  {
    if Truthy(originalText) && orig.Some? && price.Some? && orig.value > price.value then
      if orig.value == 0.0 then PlusInfinity else Percent(DiscountPercent(orig.value, price.value))
    else Percent(0)
  }

  /** The promo badge shows iff the discount is positive; the struck-through
      original price iff the original exceeds the price. */
  function PromoBadgeShown(originalText: Option<string>, orig: Option<real>, price: Option<real>): (r: bool)
    ensures r ==> StruckPriceShown(originalText, orig, price)
    ensures orig.Some? && orig.value > 0.0 ==>
              (r <==> StruckPriceShown(originalText, orig, price) && 200.0 * (orig.value - price.value) >= orig.value)
    ensures orig.Some? && orig.value == 0.0 ==> (r <==> StruckPriceShown(originalText, orig, price))
    ensures orig.Some? && orig.value < 0.0 ==> !r
  {
    CardDiscount(originalText, orig, price).Positive()
  }

  predicate StruckPriceShown(originalText: Option<string>, orig: Option<real>, price: Option<real>) {
    Truthy(originalText) && orig.Some? && price.Some? && orig.value > price.value
  }

  const StorageMarker := "supabase.co/storage"
  const ResizeQuery := "?width=400&quality=70"
  const PlaceholderImage := "https://via.placeholder.com/400x400?text=Produit"

  /** optimizedImage: storage images get the resize query appended. */
  function OptimizedImage(image: string): (r: string)
    ensures StartsWith(r, image)
    ensures r == image <==> !Includes(image, StorageMarker)
    ensures r != image ==> r[|image|..] == ResizeQuery
  {
    if Includes(image, StorageMarker) then image + ResizeQuery else image
  }

  /** The card image source, the placeholder once loading has failed. */
  function CardImage(image: string, imgError: bool): (r: string)
    ensures imgError ==> r == PlaceholderImage
    ensures !imgError ==> StartsWith(r, image)
  {
    if imgError then PlaceholderImage else OptimizedImage(image)
  }
}
