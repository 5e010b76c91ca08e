/** The administration tabs: moderation of sellers, products and identity
    checks (src/pages/admin/components/ModerationTab.tsx) and the platform
    settings (src/pages/admin/components/SettingsTab.tsx). */
module Admin {
  import opened Wrappers
  import opened Text
  import opened Entities
  import Kyc

  // ---- ModerationTab: lists and search --------------------------------------

  /** A row of the sellers view or of the products view. */
  datatype Item = SellerItem(profile: Profile) | ProductItem(product: Product)

  /** `item.full_name || item.store_name || item.name || ''`: a profile has
      no `name`, a product row has neither of the first two. */
  function ItemName(item: Item): (n: string)
    ensures item.ProductItem? ==> n == item.product.name
    ensures item.SellerItem? && Truthy(item.profile.fullName) ==> n == item.profile.fullName.value
    ensures item.SellerItem? && !Truthy(item.profile.fullName) ==> n == OrElse(item.profile.storeName, "")
  {
    match item
    case SellerItem(p) => OrElse(p.fullName, OrElse(p.storeName, ""))
    case ProductItem(p) => p.name
  }

  function Matches(search: string): Item -> bool {
    (item: Item) => Includes(Lower(ItemName(item)), Lower(search))
  }

  /** filteredData: the rows whose name contains the search text, ignoring
      case, in their order. */
  function FilteredData(items: seq<Item>, search: string): (r: seq<Item>)
    ensures |r| <= |items|
    ensures forall x :: x in r <==> x in items && Includes(Lower(ItemName(x)), Lower(search))
    ensures Subsequence(r, items)
    ensures KeepsCounts(r, items, Matches(search))
  {
    Filter(items, Matches(search))
  }

  /** A row whose name contains the search text as typed is kept, and the
      empty search keeps every row. */
  lemma {:induction false} SearchKeepsMatches(items: seq<Item>, search: string)
    ensures forall x :: x in items && Includes(ItemName(x), search) ==> x in FilteredData(items, search)
    ensures search == "" ==> FilteredData(items, search) == items
    decreases |items|
  {
    forall x | x in items && Includes(ItemName(x), search)
      ensures x in FilteredData(items, search)
    {
      LowerKeepsIncludes(ItemName(x), search);
    }
    if items != [] && search == "" {
      IncludesEmpty(Lower(ItemName(items[0])));
      SearchKeepsMatches(items[1..], search);
      assert [items[0]] + items[1..] == items;
    }
  }

  /** The status filter of the identity view: "all" sets none. */
  datatype KycFilter = AllRequests | OnlyStatus(status: Kyc.KycStatus)

  function FilterStatus(f: KycFilter): (r: Option<Kyc.KycStatus>)
    ensures r.None? <==> f == AllRequests
    ensures f.OnlyStatus? ==> r == Some(f.status)
  {
    if f.OnlyStatus? then Some(f.status) else None
  }

  /** The identity view lists every request under "all", and under a status
      the requests with that status. */
  lemma KycViewLists(db: Kyc.KycDb, f: KycFilter, q: Kyc.KycRequest)
    ensures q in Kyc.AllRequests(db, FilterStatus(f)) <==> q in db.requests && (f.OnlyStatus? ==> q.status == f.status)
  {
  }

  /** The approve and reject buttons: on pending requests only. */
  predicate ActionsShown(q: Kyc.KycRequest) {
    q.status == Kyc.KycPending
  }

  // ---- ModerationTab: toggles ------------------------------------------------

  /** The profiles after a write to the rows with the given id. */
  function SetWhere(profiles: seq<Profile>, id: string, write: Profile -> Profile): (r: seq<Profile>)
    ensures |r| == |profiles|
    ensures forall i :: 0 <= i < |profiles| ==> r[i] == if profiles[i].id == id then write(profiles[i]) else profiles[i]
  {
    seq(|profiles|, i requires 0 <= i < |profiles| => if profiles[i].id == id then write(profiles[i]) else profiles[i])
  }

  function SetVerified(flag: bool): Profile -> Profile {
    (p: Profile) => p.(verifiedSeller := flag)
  }

  function SetKyc(flag: bool): Profile -> Profile {
    (p: Profile) => p.(kycVerified := flag)
  }

  /** toggleVerification: the seller's badge becomes the opposite of the
      value shown; a failed write changes nothing. */
  function ToggleVerification(profiles: seq<Profile>, id: string, current: bool, error: Option<string>)
    : (r: seq<Profile>)
    ensures error.Some? ==> r == profiles
    ensures |r| == |profiles|
    ensures error.None? ==> forall i :: 0 <= i < |r| ==>
              (profiles[i].id == id ==> r[i].verifiedSeller == !current && r[i].kycVerified == profiles[i].kycVerified)
              && (profiles[i].id != id ==> r[i] == profiles[i])
  {
    if error.Some? then profiles else SetWhere(profiles, id, SetVerified(!current))
  }

  /** Toggling the badge twice from the value shown gives back the
      profiles. */
  lemma ToggleTwice(profiles: seq<Profile>, id: string)
    requires forall i :: 0 <= i < |profiles| && profiles[i].id == id ==> !profiles[i].verifiedSeller
    ensures ToggleVerification(ToggleVerification(profiles, id, false, None), id, true, None) == profiles
  {
    var r := ToggleVerification(ToggleVerification(profiles, id, false, None), id, true, None);
    assert forall i :: 0 <= i < |profiles| ==> r[i] == profiles[i];
  }

  /** The messages of the identity toggle. */
  datatype KycToggleAlert = KycValidated | KycRevoked | ToggleError(message: string)

  function KycToggleText(a: KycToggleAlert): string {
    match a
    case KycValidated => "✅ KYC validé avec succès"
    case KycRevoked => "✅ KYC révoqué avec succès"
    case ToggleError(m) => "❌ Erreur: " + m
  }

  /** toggleKYC: nothing unless the admin confirms; then the flag becomes
      the opposite of the value shown and an alert reports the outcome. */
  function ToggleKyc(profiles: seq<Profile>, id: string, current: bool, confirmed: bool, error: Option<string>)
    : (r: (seq<Profile>, Option<KycToggleAlert>))
    ensures !confirmed ==> r == (profiles, None)
    ensures confirmed ==> r.1.Some? && |r.0| == |profiles|
    ensures confirmed && error.Some? ==> r == (profiles, Some(ToggleError(error.value)))
    ensures confirmed && error.None? ==> r.1 == Some(if current then KycRevoked else KycValidated)
    ensures confirmed && error.None? ==> forall i :: 0 <= i < |profiles| ==>
              r.0[i] == if profiles[i].id == id then profiles[i].(kycVerified := !current) else profiles[i]
  {
    if !confirmed then (profiles, None)
    else if error.Some? then (profiles, Some(ToggleError(error.value)))
    else (SetWhere(profiles, id, SetKyc(!current)), Some(if current then KycRevoked else KycValidated))
  }

  // ---- ModerationTab: identity reviews ---------------------------------------

  datatype ReviewAlert = Approved | Rejected | ReasonRequired | ReviewError(message: string)

  function ReviewAlertText(a: ReviewAlert): string {
    match a
    case Approved => "✅ KYC approuvé ! Le vendeur peut maintenant retirer ses fonds."
    case Rejected => "❌ Demande KYC rejetée. Le vendeur sera notifié."
    case ReasonRequired => "⚠️ Vous devez fournir une raison de rejet."
    case ReviewError(m) => "❌ Erreur: " + m
  }

  /** approveKYC: a cancelled prompt (`None`) does nothing; empty notes are
      not written. The review is signed with the admin's id, or "" when signed out. */
  function ApproveKyc(db: Kyc.KycDb, q: Kyc.KycRequest, admin: Option<string>, prompt: Option<string>, now: int,
                      requestError: Option<string>, profileError: Option<string>): (r: (Kyc.KycDb, Option<ReviewAlert>))
    ensures prompt.None? ==> r == (db, None)
    ensures prompt.Some? ==> r.1.Some? && (r.1 == Some(Approved) <==> requestError.None? && profileError.None?)
    ensures prompt.Some? ==> r.0 == Kyc.Approve(db, q.id, q.sellerId, OrElse(admin, ""),
                                                 if Truthy(prompt) then prompt else None, now,
                                                 requestError, profileError).0
  {
    if prompt.None? then (db, None)
    else
      var (db', error) := Kyc.Approve(db, q.id, q.sellerId, OrElse(admin, ""),
                                      if Truthy(prompt) then prompt else None, now, requestError, profileError);
      (db', Some(if error.Some? then ReviewError(error.value) else Approved))
  }

  /** rejectKYC: a missing or blank reason is refused with an alert; a
      reason is written trimmed. */
  function RejectKyc(db: Kyc.KycDb, q: Kyc.KycRequest, admin: Option<string>, prompt: Option<string>, now: int,
                     error: Option<string>): (r: (Kyc.KycDb, ReviewAlert))
    ensures prompt.None? || Blank(prompt.value) ==> r == (db, ReasonRequired)
    ensures prompt.Some? && !Blank(prompt.value) ==>
              r.0 == Kyc.Reject(db, q.id, OrElse(admin, ""), Trim(prompt.value), now, error).0
              && (r.1 == Rejected <==> error.None?)
  {
    if prompt.None? || Trim(prompt.value) == "" then (db, ReasonRequired)
    else
      var (db', e) := Kyc.Reject(db, q.id, OrElse(admin, ""), Trim(prompt.value), now, error);
      (db', if e.Some? then ReviewError(e.value) else Rejected)
  }

  /** A rejection from the tab stores a reason that is neither blank nor
      padded, and leaves the seller's verification as it was. */
  lemma RejectionReasonStored(db: Kyc.KycDb, q: Kyc.KycRequest, admin: Option<string>, reason: string, now: int)
    requires Kyc.IndexOf(db.requests, q.id) < |db.requests|
    requires !Blank(reason)
    ensures var r := RejectKyc(db, q, admin, Some(reason), now, None).0;
            var n := r.requests[Kyc.IndexOf(db.requests, q.id)].adminNotes;
            && n == Some(Trim(reason)) && n.value != "" && !IsSpace(n.value[0])
            && r.requests[Kyc.IndexOf(db.requests, q.id)].status == Kyc.KycRejected
            && r.verified == db.verified
  {
  }

  /** Reviews from the tab keep every request's review fields in step with
      its status. */
  lemma TabReviewsKeepConsistent(db: Kyc.KycDb, q: Kyc.KycRequest, admin: Option<string>, prompt: Option<string>,
                                 now: int, e1: Option<string>, e2: Option<string>)
    requires Kyc.AllConsistent(db)
    ensures Kyc.AllConsistent(ApproveKyc(db, q, admin, prompt, now, e1, e2).0)
    ensures Kyc.AllConsistent(RejectKyc(db, q, admin, prompt, now, e1).0)
  {
    var notes := if Truthy(prompt) then prompt else None;
    Kyc.TransitionsKeepConsistent(db, q.id, Kyc.KycDraft(None, None, "", None), q.sellerId, OrElse(admin, ""),
                                  notes, if prompt.Some? then Trim(prompt.value) else "", now, e1, e2);
  }

  // ---- SettingsTab -----------------------------------------------------------

  /** The platform settings: rates in percent, withdrawal bounds in FCFA. */
  datatype Settings = Settings(commissionRate: real, aggregatorRate: real, withdrawalMin: real, withdrawalMax: real)

  /** The values shown before any load. */
  const Defaults: Settings := Settings(5.0, 2.0, 5000.0, 1000000.0)

  /** A row of `global_settings`. */
  datatype SettingsRow = SettingsRow(id: string, settings: Settings)

  /** `x || d` on a loaded number: 0 gives the default. */
  function OrDefault(x: real, d: real): real {
    if x != 0.0 then x else d
  }

  /** fetchSettings as written: `.single()` on the table (the defaults stay
      unless there is exactly one row), and each value `|| default`, so a
      stored 0 is shown as the default. */
  function LoadAsWritten(rows: seq<SettingsRow>): (s: Settings)
    ensures |rows| != 1 ==> s == Defaults
    ensures |rows| == 1 ==> && s.commissionRate == OrDefault(rows[0].settings.commissionRate, 5.0)
                            && s.aggregatorRate == OrDefault(rows[0].settings.aggregatorRate, 2.0)
                            && s.withdrawalMin == OrDefault(rows[0].settings.withdrawalMin, 5000.0)
                            && s.withdrawalMax == OrDefault(rows[0].settings.withdrawalMax, 1000000.0)
  {
    if |rows| != 1 then Defaults
    else
      var t := rows[0].settings;
      Settings(OrDefault(t.commissionRate, 5.0), OrDefault(t.aggregatorRate, 2.0),
               OrDefault(t.withdrawalMin, 5000.0), OrDefault(t.withdrawalMax, 1000000.0))
  }

  /** fetchSettings with the defaults only for a missing row (`??`): the
      stored values are shown as they are. */
  function Load(rows: seq<SettingsRow>): (s: Settings)
    ensures |rows| != 1 ==> s == Defaults
    ensures |rows| == 1 ==> s == rows[0].settings
  {
    if |rows| == 1 then rows[0].settings else Defaults
  }

  /** `parseFloat(e.target.value) || 0`: a number as typed, 0 for an entry
      that is not one. */
  function ParseInput(v: Option<real>): (x: real)
    ensures v.Some? ==> x == v.value
    ensures v.None? ==> x == 0.0
  {
    v.GetOr(0.0)
  }

  /** The worked example over 10 000 FCFA: the aggregator's fee, the
      platform's commission and what the seller keeps. */
  function Example(s: Settings): (r: (real, real, real))
    ensures r.0 + r.1 + r.2 == 10000.0
    ensures r.0 == 100.0 * s.aggregatorRate && r.1 == 100.0 * s.commissionRate
    ensures r.2 >= 0.0 <==> s.aggregatorRate + s.commissionRate <= 100.0
  {
    var fee := 10000.0 * s.aggregatorRate / 100.0;
    var commission := 10000.0 * s.commissionRate / 100.0;
    (fee, commission, 10000.0 - fee - commission)
  }

  datatype SaveMessage = SaveSucceeded | SaveFailed

  function SaveMessageText(m: SaveMessage): string {
    match m
    case SaveSucceeded => "Paramètres sauvegardés avec succès !"
    case SaveFailed => "Erreur lors de la sauvegarde"
  }

  /** handleSave: the one existing row is updated; with none, or with
      several (`.single()` then finds none), a row is inserted. */
  function Save(rows: seq<SettingsRow>, s: Settings, newId: string, error: Option<string>)
    : (r: (seq<SettingsRow>, SaveMessage))
    ensures error.Some? <==> r == (rows, SaveFailed)
    ensures error.None? && |rows| == 1 ==> r.0 == [rows[0].(settings := s)]
    ensures error.None? && |rows| != 1 ==> r.0 == rows + [SettingsRow(newId, s)]
  {
    if error.Some? then (rows, SaveFailed)
    else if |rows| == 1 then ([rows[0].(settings := s)], SaveSucceeded)
    else (rows + [SettingsRow(newId, s)], SaveSucceeded)
  }

  /** With at most one row, what is saved is what the next load shows. */
  lemma SaveThenLoad(rows: seq<SettingsRow>, s: Settings, newId: string)
    requires |rows| <= 1
    ensures Load(Save(rows, s, newId, None).0) == s
  {
  }

  /** As written, a platform commission of 0 saved from the tab is shown
      as 5 on the next load, and saving again writes 5. */
  lemma ZeroCommissionReloadsAsFive(rows: seq<SettingsRow>, s: Settings, newId: string)
    requires |rows| <= 1 && s.commissionRate == 0.0
    ensures LoadAsWritten(Save(rows, s, newId, None).0).commissionRate == 5.0
    ensures Load(Save(rows, s, newId, None).0).commissionRate == 0.0
  {
  }
}
