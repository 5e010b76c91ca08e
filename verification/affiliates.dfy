/** Affiliate links (src/services/affiliateService.ts): one link per
    (affiliate, product) pair, created or reactivated by registering a
    promotion, then paused, resumed or archived. */
module Affiliates {
  import opened Wrappers
  import opened Sorting
  import opened Entities

  datatype LinkStatus = Active | Paused | Archived

  /** A row of `affiliate_links`, with the joined product name. */
  datatype AffiliateLink = AffiliateLink(
    id: string,
    affiliateId: string,
    productId: string,
    status: LinkStatus,
    createdAt: int,
    productName: Option<string>)

  /** The table's invariants: ids are unique, and so is each
      (affiliate, product) pair, the conflict target of the upsert. */
  predicate WellFormed(links: seq<AffiliateLink>) {
    (forall i, j :: 0 <= i < j < |links| ==> links[i].id != links[j].id)
    && (forall i, j :: 0 <= i < j < |links| ==>
          (links[i].affiliateId, links[i].productId) != (links[j].affiliateId, links[j].productId))
  }

  /** Position of the link for a pair, or `|links|` when there is none. */
  function PairIndex(links: seq<AffiliateLink>, affiliateId: string, productId: string): (i: nat)
    ensures i <= |links|
    ensures i < |links| ==> links[i].affiliateId == affiliateId && links[i].productId == productId
    ensures forall j :: 0 <= j < i ==> !(links[j].affiliateId == affiliateId && links[j].productId == productId)
  {
    if links == [] then 0
    else if links[0].affiliateId == affiliateId && links[0].productId == productId then 0
    else 1 + PairIndex(links[1..], affiliateId, productId)
  }

  predicate HasPair(links: seq<AffiliateLink>, affiliateId: string, productId: string) {
    exists i :: 0 <= i < |links| && links[i].affiliateId == affiliateId && links[i].productId == productId
  }

  predicate HasId(links: seq<AffiliateLink>, id: string) {
    exists i :: 0 <= i < |links| && links[i].id == id
  }

  const NotAffiliable := "Ce produit n'est plus disponible pour l'affiliation"

  /** Whether the product query finds an affiliate-enabled product. */
  predicate Affiliable(products: map<string, Product>, productId: string) {
    productId in products && products[productId].affiliateEnabled
  }

  /** registerPromotion: refused for a product that is missing or not open to
      affiliation; otherwise an upsert on the (affiliate, product) pair with
      status active. `newId` and `now` are what the database assigns to an
      inserted row; `upsertError` is the error the upsert may return, which
      leaves the table as it was. */
  function RegisterPromotion(links: seq<AffiliateLink>, products: map<string, Product>,
                             affiliateId: string, productId: string,
                             newId: string, now: int, upsertError: Option<string>): (r: Result<seq<AffiliateLink>>)
    requires WellFormed(links) && !HasId(links, newId)
    ensures r.Err? <==> !Affiliable(products, productId) || upsertError.Some?
    ensures !Affiliable(products, productId) ==> r == Err(NotAffiliable)
    ensures Affiliable(products, productId) && upsertError.Some? ==> r == Err(upsertError.value)
    ensures r.Ok? ==> WellFormed(r.value)
    ensures r.Ok? ==> HasPair(r.value, affiliateId, productId)
                      && r.value[PairIndex(r.value, affiliateId, productId)].status == Active
    ensures r.Ok? ==> |r.value| == |links| + (if HasPair(links, affiliateId, productId) then 0 else 1)
    ensures r.Ok? ==> forall i :: 0 <= i < |links| && !(links[i].affiliateId == affiliateId && links[i].productId == productId)
                                  ==> r.value[i] == links[i]
  {
    if !Affiliable(products, productId) then Err(NotAffiliable)
    else if upsertError.Some? then Err(upsertError.value)
    else
      var i := PairIndex(links, affiliateId, productId);
      if i < |links| then
        var r := links[i := links[i].(status := Active)];
        assert PairIndex(r, affiliateId, productId) == i by {
          PairIndexOf(r, affiliateId, productId, i);
        }
        Ok(r)
      else
        var created := AffiliateLink(newId, affiliateId, productId, Active, now, None);
        var r := links + [created];
        assert !HasPair(links, affiliateId, productId);
        assert PairIndex(r, affiliateId, productId) == |links| by {
          PairIndexOf(r, affiliateId, productId, |links|);
        }
        Ok(r)
  }

  /** A link standing at `i` with no earlier link for its pair is what
      `PairIndex` finds. */
  lemma {:induction false} PairIndexOf(links: seq<AffiliateLink>, affiliateId: string, productId: string, i: nat)
    requires i < |links| && links[i].affiliateId == affiliateId && links[i].productId == productId
    requires forall j :: 0 <= j < i ==> !(links[j].affiliateId == affiliateId && links[j].productId == productId)
    ensures PairIndex(links, affiliateId, productId) == i
    decreases i
  {
    if i > 0 {
      PairIndexOf(links[1..], affiliateId, productId, i - 1);
    }
  }

  /** Registering the same promotion again changes nothing more: the second
      upsert finds the active link and leaves the table as it is. */
  lemma RegisterIdempotent(links: seq<AffiliateLink>, products: map<string, Product>,
                           affiliateId: string, productId: string, newId: string, now: int,
                           newId2: string, now2: int)
    requires WellFormed(links) && !HasId(links, newId)
    requires RegisterPromotion(links, products, affiliateId, productId, newId, now, None).Ok?
    requires !HasId(RegisterPromotion(links, products, affiliateId, productId, newId, now, None).value, newId2)
    ensures var once := RegisterPromotion(links, products, affiliateId, productId, newId, now, None).value;
            RegisterPromotion(once, products, affiliateId, productId, newId2, now2, None) == Ok(once)
  {
    var once := RegisterPromotion(links, products, affiliateId, productId, newId, now, None).value;
    var i := PairIndex(once, affiliateId, productId);
    assert once[i := once[i].(status := Active)] == once;
  }

  /** Sets the status of the link with the given id; an unknown id matches
      no row and changes nothing. */
  function SetStatus(links: seq<AffiliateLink>, linkId: string, status: LinkStatus): (r: seq<AffiliateLink>)
    ensures |r| == |links|
    ensures forall i :: 0 <= i < |links| ==>
              r[i] == if links[i].id == linkId then links[i].(status := status) else links[i]
  {
    if links == [] then []
    else [if links[0].id == linkId then links[0].(status := status) else links[0]]
         + SetStatus(links[1..], linkId, status)
  }

  /** The update of pausePromotion, resumePromotion and archivePromotion, from
      any status: `writeError` is the error the update may return, which
      leaves the table as it was. */
  function UpdateStatus(links: seq<AffiliateLink>, linkId: string, status: LinkStatus,
                        writeError: Option<string>): (r: Result<seq<AffiliateLink>>)
    ensures r.Err? <==> writeError.Some?
    ensures r.Err? ==> r.msg == writeError.value
    ensures r.Ok? ==> |r.value| == |links|
                      && forall i :: 0 <= i < |links| && links[i].id == linkId ==> r.value[i].status == status
  {
    if writeError.Some? then Err(writeError.value) else Ok(SetStatus(links, linkId, status))
  }

  function PausePromotion(links: seq<AffiliateLink>, linkId: string, writeError: Option<string>): (r: Result<seq<AffiliateLink>>)
    ensures r.Err? <==> writeError.Some?
    ensures r.Ok? ==> forall i :: 0 <= i < |r.value| && r.value[i].id == linkId ==> r.value[i].status == Paused
  {
    UpdateStatus(links, linkId, Paused, writeError)
  }

  function ResumePromotion(links: seq<AffiliateLink>, linkId: string, writeError: Option<string>): (r: Result<seq<AffiliateLink>>)
    ensures r.Err? <==> writeError.Some?
    ensures r.Ok? ==> forall i :: 0 <= i < |r.value| && r.value[i].id == linkId ==> r.value[i].status == Active
  {
    UpdateStatus(links, linkId, Active, writeError)
  }

  function ArchivePromotion(links: seq<AffiliateLink>, linkId: string, writeError: Option<string>): (r: Result<seq<AffiliateLink>>)
    ensures r.Err? <==> writeError.Some?
    ensures r.Ok? ==> forall i :: 0 <= i < |r.value| && r.value[i].id == linkId ==> r.value[i].status == Archived
  {
    UpdateStatus(links, linkId, Archived, writeError)
  }

  /** A status change keeps the table well formed, and only the status of the
      chosen link differs. */
  lemma SetStatusFrame(links: seq<AffiliateLink>, linkId: string, status: LinkStatus)
    requires WellFormed(links)
    ensures var r := SetStatus(links, linkId, status);
            WellFormed(r)
            && forall i :: 0 <= i < |r| ==>
                 r[i].id == links[i].id && r[i].affiliateId == links[i].affiliateId
                 && r[i].productId == links[i].productId && r[i].createdAt == links[i].createdAt
                 && (links[i].id != linkId ==> r[i].status == links[i].status)
  {
  }

  /** Pausing then resuming a link restores it when it was active. */
  lemma PauseResume(links: seq<AffiliateLink>, linkId: string)
    requires forall i :: 0 <= i < |links| && links[i].id == linkId ==> links[i].status == Active
    ensures ResumePromotion(PausePromotion(links, linkId, None).value, linkId, None) == Ok(links)
  {
    var r := SetStatus(SetStatus(links, linkId, Paused), linkId, Active);
    assert forall i :: 0 <= i < |links| ==> r[i] == links[i];
    assert r == links;
  }

  function LinkCreated(l: AffiliateLink): real {
    l.createdAt as real
  }

  predicate LinkSelected(l: AffiliateLink, affiliateId: string, status: Option<LinkStatus>) {
    l.affiliateId == affiliateId && (status.Some? ==> l.status == status.value)
  }

  /** getAffiliateLinks: the affiliate's links, of the given status when one
      is given, newest first. */
  function AffiliateLinks(links: seq<AffiliateLink>, affiliateId: string, status: Option<LinkStatus>): (r: seq<AffiliateLink>)
    ensures forall l :: l in r <==> l in links && LinkSelected(l, affiliateId, status)
    ensures Sorted(r, LinkCreated, true)
    ensures KeepsCounts(r, links, (l: AffiliateLink) => LinkSelected(l, affiliateId, status))
  {
    var mine := Filter(links, (l: AffiliateLink) => LinkSelected(l, affiliateId, status));
    var r := SortBy(mine, LinkCreated, true);
    assert forall l :: l in r <==> l in mine by {
      forall l
        ensures l in r <==> l in mine
      {
        assert l in r <==> l in multiset(r);
        assert l in mine <==> l in multiset(mine);
      }
    }
    r
  }

  /** The link an affiliate shares: `<origin>/product/<id>?ref=<affiliate>`. */
  function AffiliateUrl(origin: string, productId: string, affiliateId: string): (r: string)
    ensures |r| >= |origin| && r[..|origin|] == origin
    ensures |r| >= |affiliateId| && r[|r| - |affiliateId|..] == affiliateId
  {
    origin + "/product/" + productId + "?ref=" + affiliateId
  }
}
