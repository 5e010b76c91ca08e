/** The affiliate dashboard (src/pages/affiliate/AffiliateDashboard.tsx):
    missions (products open to affiliation) with accent-insensitive search
    and sorting, the affiliate's non-archived links, the sales summary and
    the link actions. */
module AffiliateDashboard {
  import opened Wrappers
  import opened Text
  import opened Sorting
  import opened Entities
  import opened Affiliates
  import AffiliateStats

  /** Combining diacritical marks, U+0300 to U+036F. */
  predicate IsMark(c: char) {
    '\U{0300}' <= c <= '\U{036F}'
  }

  /** `replace(/[̀-ͯ]/g, "")`. */
  function StripMarks(s: string): (r: string)
    ensures |r| <= |s|
    ensures forall c :: c in r <==> c in s && !IsMark(c)
  {
    if s == [] then []
    else (if IsMark(s[0]) then [] else [s[0]]) + StripMarks(s[1..])
  }

  /** normalizeText. Unicode canonical decomposition (`normalize("NFD")`)
      is the parameter `nfd`. */
  function Normalize(nfd: string -> string, s: string): (r: string)
    ensures |r| <= |nfd(s)|
    ensures forall c :: c in r ==> !IsMark(c)
  {
    var stripped := StripMarks(nfd(s));
    var r := Lower(stripped);
    assert forall i :: 0 <= i < |r| ==> !IsMark(r[i]) by {
      forall i | 0 <= i < |r|
        ensures !IsMark(r[i])
      {
        assert stripped[i] in stripped;
      }
    }
    r
  }

  /** The normalised field, or "" when the field is missing or empty. */
  function NormalizedField(nfd: string -> string, field: Option<string>): string {
    if Truthy(field) then Normalize(nfd, field.value) else ""
  }

  /** A mission is kept when its normalised name or description contains
      the normalised search term. */
  predicate MissionMatches(nfd: string -> string, p: Product, term: string) {
    var search := Normalize(nfd, term);
    Includes(NormalizedField(nfd, Some(p.name)), search)
    || Includes(NormalizedField(nfd, p.description), search)
  }

  /** The sort select: 'commission', 'price', 'price_desc' and 'recent'. */
  datatype MissionSort = ByCommission | ByPrice | ByPriceDesc | ByNewest

  function CommissionKey(p: Product): real {
    OrZero(p.defaultCommission)
  }

  function PriceKey(p: Product): real {
    p.price
  }

  function CreatedKey(p: Product): real {
    p.createdAt as real
  }

  /** `products`: the catalogue's affiliate-enabled products. */
  function Missions(catalogue: seq<Product>): (r: seq<Product>)
    ensures forall p :: p in r <==> p in catalogue && p.affiliateEnabled
    ensures Subsequence(r, catalogue)
    ensures KeepsCounts(r, catalogue, (p: Product) => p.affiliateEnabled)
  {
    Filter(catalogue, (p: Product) => p.affiliateEnabled)
  }

  /** filteredProducts: the matching missions in the chosen order. */
  function FilteredMissions(nfd: string -> string, catalogue: seq<Product>, term: string, sort: MissionSort): (r: seq<Product>)
    ensures forall p :: p in r <==> p in catalogue && p.affiliateEnabled && MissionMatches(nfd, p, term)
    ensures sort == ByCommission ==> Sorted(r, CommissionKey, true)
    ensures sort == ByPrice ==> Sorted(r, PriceKey, false)
    ensures sort == ByPriceDesc ==> Sorted(r, PriceKey, true)
    ensures sort == ByNewest ==> Sorted(r, CreatedKey, true)
    ensures KeepsCounts(r, catalogue, (p: Product) => p.affiliateEnabled && MissionMatches(nfd, p, term))
  {
    var kept := Filter(Missions(catalogue), (p: Product) => MissionMatches(nfd, p, term));
    KeepsChain(kept, Missions(catalogue), catalogue, (p: Product) => p.affiliateEnabled, (p: Product) => MissionMatches(nfd, p, term));
    var r := match sort
      case ByCommission => SortBy(kept, CommissionKey, true)
      case ByPrice => SortBy(kept, PriceKey, false)
      case ByPriceDesc => SortBy(kept, PriceKey, true)
      case ByNewest => SortBy(kept, CreatedKey, true);
    assert multiset(r) == multiset(kept);
    KeepsCountsReordered(r, kept, catalogue, (p: Product) => p.affiliateEnabled && MissionMatches(nfd, p, term));
    assert forall p :: p in r <==> p in kept by {
      forall p
        ensures p in r <==> p in kept
      {
        assert p in r <==> p in multiset(r);
        assert p in kept <==> p in multiset(kept);
      }
    }
    r
  }

  /** An empty search term keeps every mission, provided decomposition maps
      the empty string to itself. */
  lemma EmptyTermKeepsAll(nfd: string -> string, catalogue: seq<Product>, sort: MissionSort)
    requires nfd("") == ""
    ensures forall p :: p in FilteredMissions(nfd, catalogue, "", sort) <==> p in catalogue && p.affiliateEnabled
  {
    forall p: Product
      ensures MissionMatches(nfd, p, "")
    {
      assert Normalize(nfd, "") == "";
      IncludesEmpty(NormalizedField(nfd, Some(p.name)));
    }
  }

  /** Accents in the data do not hide a mission: a name containing the term
      once both are decomposed and stripped of marks matches. */
  lemma AccentInsensitive(nfd: string -> string, p: Product, term: string)
    requires p.name != ""
    requires Includes(StripMarks(nfd(p.name)), StripMarks(nfd(term)))
    ensures MissionMatches(nfd, p, term)
  {
    var a, b := StripMarks(nfd(p.name)), StripMarks(nfd(term));
    assert NormalizedField(nfd, Some(p.name)) == Lower(a);
    assert Normalize(nfd, term) == Lower(b);
    LowerKeepsIncludes(a, b);
  }

  /** filteredLinks: the links that are not archived and whose normalised
      product name contains the normalised term. */
  function FilteredLinks(nfd: string -> string, links: seq<AffiliateLink>, term: string): (r: seq<AffiliateLink>)
    ensures forall l :: l in r ==> l in links && l.status != Archived
    ensures forall l :: l in links && l.status != Archived && Includes(NormalizedField(nfd, l.productName), Normalize(nfd, term)) ==> l in r
    ensures Subsequence(r, links)
    ensures KeepsCounts(r, links, (l: AffiliateLink) =>
      l.status != Archived && Includes(NormalizedField(nfd, l.productName), Normalize(nfd, term)))
  {
    Filter(links, (l: AffiliateLink) =>
      l.status != Archived && Includes(NormalizedField(nfd, l.productName), Normalize(nfd, term)))
  }

  /** The three figures of the sales summary: products, sales, earnings. */
  function SalesSummary(s: AffiliateStats.Stats): (int, real, real) {
    (|s.salesByProduct|, Sum(s.salesByProduct, AffiliateStats.EntryCount), Sum(s.salesByProduct, AffiliateStats.EntryEarned))
  }

  /** The summary's sales and earnings equal the headline sales count and
      total earned. */
  lemma SummaryMatchesStats(orders: seq<Order>, products: map<string, Product>, userId: Option<string>)
    requires AffiliateStats.AffiliateStats(orders, products, userId, None).Ok?
    requires AffiliateStats.AffiliateStats(orders, products, userId, None).value.Some?
    ensures var s := AffiliateStats.AffiliateStats(orders, products, userId, None).value.value;
            SalesSummary(s).1 == s.salesCount as real && SalesSummary(s).2 == s.totalEarned
  {
    AffiliateStats.SummaryMatchesTotals(orders, products, userId);
  }

  datatype Tab = WalletTab | MissionsTab | LinksTab | SalesTab

  datatype View = View(activeTab: Tab, searchTerm: string)

  /** Choosing a tab; the effect on `activeTab` clears the search term
      whenever the tab actually changes. */
  function SelectTab(v: View, tab: Tab): (r: View)
    ensures r.activeTab == tab
    ensures tab != v.activeTab ==> r.searchTerm == ""
    ensures tab == v.activeTab ==> r == v
  {
    if tab == v.activeTab then v else View(tab, "")
  }

  datatype ToastKind = InfoKind | SuccessKind | ErrorKind

  /** A toast shown by showToast: its text and its kind. */
  datatype Toast = Toast(kind: ToastKind, text: string)

  /** What copyLink leaves behind: the text put on the clipboard, the links
      table and the toast. */
  datatype CopyOutcome = CopyOutcome(clipboard: Option<string>, links: seq<AffiliateLink>, toast: Option<Toast>)

  const LinkCopied := "Lien copi\U{00E9} et enregistr\U{00E9} dans vos liens actifs !"
  const CopyFailed := "Erreur lors de la copie du lien"

  /** copyLink: without a user nothing happens. Otherwise the referral URL is
      written to the clipboard, which may fail (`clipboardFails`) and then
      lands in the catch; next the promotion is registered, and the toast
      reports the registration's error or success. */
  function CopyLink(userId: Option<string>, origin: string, productId: string,
                    links: seq<AffiliateLink>, products: map<string, Product>,
                    newId: string, now: int, clipboardFails: bool, upsertError: Option<string>): (r: CopyOutcome)
    requires WellFormed(links) && !HasId(links, newId)
    ensures userId.None? ==> r == CopyOutcome(None, links, None)
    ensures userId.Some? && clipboardFails ==> r == CopyOutcome(None, links, Some(Toast(ErrorKind, CopyFailed)))
    ensures userId.Some? && !clipboardFails ==> r.clipboard == Some(AffiliateUrl(origin, productId, userId.value))
    ensures userId.Some? && !clipboardFails && Affiliable(products, productId) && upsertError.None? ==>
              r.toast == Some(Toast(SuccessKind, LinkCopied)) && HasPair(r.links, userId.value, productId)
    ensures userId.Some? && !clipboardFails && !Affiliable(products, productId) ==>
              r.toast == Some(Toast(ErrorKind, NotAffiliable)) && r.links == links
    ensures userId.Some? && !clipboardFails && Affiliable(products, productId) && upsertError.Some? ==>
              r.toast == Some(Toast(ErrorKind, upsertError.value)) && r.links == links
  {
    if userId.None? then CopyOutcome(None, links, None)
    else if clipboardFails then CopyOutcome(None, links, Some(Toast(ErrorKind, CopyFailed)))
    else
      var url := AffiliateUrl(origin, productId, userId.value);
      match RegisterPromotion(links, products, userId.value, productId, newId, now, upsertError)
      case Err(msg) => CopyOutcome(Some(url), links, Some(Toast(ErrorKind, msg)))
      case Ok(updated) => CopyOutcome(Some(url), updated, Some(Toast(SuccessKind, LinkCopied)))
  }

  /** What a pause, resume or archive handler leaves behind: the links table
      and the toast, if any. */
  datatype Handled = Handled(links: seq<AffiliateLink>, toast: Option<Toast>)

  const LinkPaused := "Lien mis en pause"
  const PauseFailed := "Erreur lors de la pause"
  const LinkResumed := "Lien r\U{00E9}activ\U{00E9}"
  const ResumeFailed := "Erreur lors de la r\U{00E9}activation"
  const LinkArchived := "Lien archiv\U{00E9}"
  const ArchiveFailed := "Erreur lors de l'archivage"

  /** handlePauseLink: the update's error keeps the table and shows the error
      toast; otherwise the link is paused with an info toast. */
  function HandlePause(links: seq<AffiliateLink>, linkId: string, writeError: Option<string>): (r: Handled)
    ensures writeError.Some? ==> r == Handled(links, Some(Toast(ErrorKind, PauseFailed)))
    ensures writeError.None? ==>
              r.toast == Some(Toast(InfoKind, LinkPaused))
              && forall i :: 0 <= i < |r.links| && r.links[i].id == linkId ==> r.links[i].status == Paused
  {
    match PausePromotion(links, linkId, writeError)
    case Ok(updated) => Handled(updated, Some(Toast(InfoKind, LinkPaused)))
    case Err(_) => Handled(links, Some(Toast(ErrorKind, PauseFailed)))
  }

  /** handleResumeLink: as handlePauseLink, making the link active with a
      success toast. */
  function HandleResume(links: seq<AffiliateLink>, linkId: string, writeError: Option<string>): (r: Handled)
    ensures writeError.Some? ==> r == Handled(links, Some(Toast(ErrorKind, ResumeFailed)))
    ensures writeError.None? ==>
              r.toast == Some(Toast(SuccessKind, LinkResumed))
              && forall i :: 0 <= i < |r.links| && r.links[i].id == linkId ==> r.links[i].status == Active
  {
    match ResumePromotion(links, linkId, writeError)
    case Ok(updated) => Handled(updated, Some(Toast(SuccessKind, LinkResumed)))
    case Err(_) => Handled(links, Some(Toast(ErrorKind, ResumeFailed)))
  }

  /** handleArchiveLink: nothing happens without confirmation; otherwise the
      update's error keeps the table and shows the error toast, and success
      archives the link with an info toast. */
  function HandleArchive(links: seq<AffiliateLink>, linkId: string, confirmed: bool, writeError: Option<string>): (r: Handled)
    ensures !confirmed ==> r == Handled(links, None)
    ensures confirmed && writeError.Some? ==> r == Handled(links, Some(Toast(ErrorKind, ArchiveFailed)))
    ensures confirmed && writeError.None? ==>
              r.toast == Some(Toast(InfoKind, LinkArchived))
              && forall i :: 0 <= i < |r.links| && r.links[i].id == linkId ==> r.links[i].status == Archived
  {
    if !confirmed then Handled(links, None)
    else
      match ArchivePromotion(links, linkId, writeError)
      case Ok(updated) => Handled(updated, Some(Toast(InfoKind, LinkArchived)))
      case Err(_) => Handled(links, Some(Toast(ErrorKind, ArchiveFailed)))
  }

  /** Pausing then resuming an active link from the dashboard restores the
      table; a failed update leaves it as it was. */
  lemma PauseThenResume(links: seq<AffiliateLink>, linkId: string, pauseError: Option<string>)
    requires forall i :: 0 <= i < |links| && links[i].id == linkId ==> links[i].status == Active
    ensures HandleResume(HandlePause(links, linkId, pauseError).links, linkId, None).links == links
  {
    if pauseError.None? {
      PauseResume(links, linkId);
    }
  }

  /** An archived link disappears from the dashboard's list. */
  lemma ArchivedLinkHidden(nfd: string -> string, links: seq<AffiliateLink>, linkId: string, term: string)
    ensures forall l :: l in FilteredLinks(nfd, HandleArchive(links, linkId, true, None).links, term) ==> l.id != linkId
  {
  }
}
