/** Identity verification of sellers (KYC): the request rows and their
    transitions (src/services/kycService.ts), the seller's request form
    (src/components/kyc/KYCRequestModal.tsx) and the card on the seller
    dashboard that shows where the request stands
    (src/pages/seller/SellerDashboard.tsx). */
module Kyc {
  import opened Wrappers
  import opened Text
  import opened Sorting
  import Entities

  datatype KycStatus = KycPending | KycApproved | KycRejected

  /** A row of `kyc_requests`. Times are milliseconds. */
  datatype KycRequest = KycRequest(
    id: string,
    sellerId: string,
    status: KycStatus,
    idCardUrl: Option<string>,
    selfieUrl: Option<string>,
    whatsapp: string,
    notes: Option<string>,
    adminNotes: Option<string>,
    reviewedBy: Option<string>,
    reviewedAt: Option<int>,
    createdAt: int)

  /** The rows KYC touches: the requests, and each profile's
      `kyc_verified` flag by profile id. */
  datatype KycDb = KycDb(requests: seq<KycRequest>, verified: map<string, bool>)

  /** A request is reviewed exactly when it is no longer pending, and a
      pending one carries no review note. */
  predicate Consistent(r: KycRequest) {
    && (r.status == KycPending <==> r.reviewedBy.None? && r.reviewedAt.None?)
    && (r.status == KycPending ==> r.adminNotes.None?)
  }

  predicate AllConsistent(db: KycDb) {
    forall i :: 0 <= i < |db.requests| ==> Consistent(db.requests[i])
  }

  /** What the seller sends: the document URLs, the WhatsApp number and the
      notes. A missing value is left out of the row written. */
  datatype KycDraft = KycDraft(idCardUrl: Option<string>, selfieUrl: Option<string>,
                               whatsapp: string, notes: Option<string>)

  // ---- kycService ----------------------------------------------------------

  /** A field sent as `undefined` is left out of the row written, so an
      update keeps its earlier value. */
  function Written<T>(v: Option<T>, earlier: Option<T>): (r: Option<T>)
    ensures v.Some? ==> r == v
    ensures v.None? ==> r == earlier
  {
    if v.Some? then v else earlier
  }

  /** getSellerKYCRequest: the seller's most recent request, none when
      the seller has none. */
  function LatestRequest(rs: seq<KycRequest>, seller: string): (r: Option<KycRequest>)
    ensures r.None? <==> forall i :: 0 <= i < |rs| ==> rs[i].sellerId != seller
    ensures r.Some? ==> r.value in rs && r.value.sellerId == seller
    ensures r.Some? ==> forall i :: 0 <= i < |rs| && rs[i].sellerId == seller ==>
                          rs[i].createdAt <= r.value.createdAt
  {
    if rs == [] then None
    else
      var rest := LatestRequest(rs[1..], seller);
      assert forall i :: 1 <= i < |rs| ==> rs[i] == rs[1..][i - 1];
      if rs[0].sellerId != seller then rest
      else if rest.Some? && rest.value.createdAt > rs[0].createdAt then rest
      else Some(rs[0])
  }

  /** submitKYCRequest: a new row in status pending, with no review. */
  function SubmitRequest(db: KycDb, newId: string, seller: string, d: KycDraft, now: int,
                         insertError: Option<string>): (r: Result<(KycDb, KycRequest)>)
    ensures r.Err? <==> insertError.Some?
    ensures r.Ok? ==> r.value.0 == db.(requests := db.requests + [r.value.1])
    ensures r.Ok? ==> var q := r.value.1;
              && q.id == newId && q.sellerId == seller && q.status == KycPending
              && q.idCardUrl == d.idCardUrl && q.selfieUrl == d.selfieUrl
              && q.whatsapp == d.whatsapp && q.notes == d.notes && q.createdAt == now
              && Consistent(q)
  {
    if insertError.Some? then Err(insertError.value)
    else
      var q := KycRequest(newId, seller, KycPending, d.idCardUrl, d.selfieUrl, d.whatsapp, d.notes,
                          None, None, None, now);
      Ok((db.(requests := db.requests + [q]), q))
  }

  /** Position of the row with the given id, `|rs|` when there is none. */
  function IndexOf(rs: seq<KycRequest>, id: string): (i: nat)
    ensures i <= |rs|
    ensures i < |rs| ==> rs[i].id == id
    ensures forall j :: 0 <= j < i ==> rs[j].id != id
  {
    if rs == [] then 0
    else if rs[0].id == id then 0
    else 1 + IndexOf(rs[1..], id)
  }

  /** An update by id: the row changed, every other row kept. */
  function UpdateAt(db: KycDb, i: nat, q: KycRequest): (r: KycDb)
    requires i < |db.requests|
    ensures |r.requests| == |db.requests| && r.requests[i] == q && r.verified == db.verified
    ensures forall j :: 0 <= j < |db.requests| && j != i ==> r.requests[j] == db.requests[j]
  {
    db.(requests := db.requests[i := q])
  }

  /** resubmitKYCRequest: the row goes back to pending with its review
      cleared and the new documents; notes left out keep their old value.
      `.single()` makes a missing row an error. */
  function ResubmitRequest(db: KycDb, id: string, d: KycDraft, updateError: Option<string>)
    : (r: Result<(KycDb, KycRequest)>)
    ensures r.Err? <==> updateError.Some? || IndexOf(db.requests, id) == |db.requests|
    ensures r.Ok? ==> var i := IndexOf(db.requests, id); var q := r.value.1;
              && i < |db.requests| && r.value.0 == UpdateAt(db, i, q)
              && q.status == KycPending && Consistent(q)
              && q.id == id && q.sellerId == db.requests[i].sellerId
              && q.idCardUrl == Written(d.idCardUrl, db.requests[i].idCardUrl)
              && q.selfieUrl == Written(d.selfieUrl, db.requests[i].selfieUrl)
              && q.whatsapp == d.whatsapp && q.notes == Written(d.notes, db.requests[i].notes)
              && q.createdAt == db.requests[i].createdAt
  {
    var i := IndexOf(db.requests, id);
    if updateError.Some? then Err(updateError.value)
    else if i == |db.requests| then Err("JSON object requested, multiple (or no) rows returned")
    else
      var prev := db.requests[i];
      var q := prev.(status := KycPending,
                    idCardUrl := Written(d.idCardUrl, prev.idCardUrl),
                    selfieUrl := Written(d.selfieUrl, prev.selfieUrl),
                    whatsapp := d.whatsapp,
                    notes := Written(d.notes, prev.notes),
                    adminNotes := None, reviewedBy := None, reviewedAt := None);
      Ok((UpdateAt(db, i, q), q))
  }

  /** Records a review on the row with the given id, if there is one. */
  function Review(db: KycDb, id: string, status: KycStatus, notes: Option<string>, admin: string, now: int)
    : (r: KycDb)
    requires status != KycPending
    ensures var i := IndexOf(db.requests, id);
            if i == |db.requests| then r == db
            else r == UpdateAt(db, i, db.requests[i].(status := status,
                                                      adminNotes := Written(notes, db.requests[i].adminNotes),
                                                      reviewedBy := Some(admin), reviewedAt := Some(now)))
  {
    var i := IndexOf(db.requests, id);
    if i == |db.requests| then db
    else
      var prev := db.requests[i];
      UpdateAt(db, i, prev.(status := status, adminNotes := Written(notes, prev.adminNotes),
                           reviewedBy := Some(admin), reviewedAt := Some(now)))
  }

  /** approveKYCRequest: the request is approved, and only then the
      seller's profile is marked verified. An error of either write is
      returned; the first one stops everything. */
  function Approve(db: KycDb, id: string, seller: string, admin: string, notes: Option<string>, now: int,
                   requestError: Option<string>, profileError: Option<string>): (r: (KycDb, Option<string>))
    ensures requestError.Some? ==> r == (db, requestError)
    ensures requestError.None? ==> r.1 == profileError
    ensures requestError.None? ==> r.0.requests == Review(db, id, KycApproved, notes, admin, now).requests
    ensures requestError.None? && profileError.None? && seller in db.verified ==>
              r.0.verified == db.verified[seller := true]
    ensures requestError.Some? || profileError.Some? || seller !in db.verified ==> r.0.verified == db.verified
  {
    if requestError.Some? then (db, requestError)
    else
      var reviewed := Review(db, id, KycApproved, notes, admin, now);
      if profileError.Some? || seller !in db.verified then (reviewed, profileError)
      else (reviewed.(verified := reviewed.verified[seller := true]), None)
  }

  /** rejectKYCRequest: the request is rejected with the reason as its
      note; no profile changes. */
  function Reject(db: KycDb, id: string, admin: string, reason: string, now: int, error: Option<string>)
    : (r: (KycDb, Option<string>))
    ensures r.1 == error && r.0.verified == db.verified
    ensures error.Some? ==> r.0 == db
    ensures error.None? ==> r.0 == Review(db, id, KycRejected, Some(reason), admin, now)
    ensures error.None? && IndexOf(db.requests, id) < |db.requests| ==>
              r.0.requests[IndexOf(db.requests, id)].adminNotes == Some(reason)
  {
    if error.Some? then (db, error) else (Review(db, id, KycRejected, Some(reason), admin, now), None)
  }

  function CreatedKey(r: KycRequest): real { r.createdAt as real }

  /** getAllKYCRequests: the requests with the given status, all of them
      without one, newest first. */
  function AllRequests(db: KycDb, status: Option<KycStatus>): (r: seq<KycRequest>)
    ensures forall q :: q in r <==> q in db.requests && (status.None? || q.status == status.value)
    ensures Sorted(r, CreatedKey, true)
    ensures status.None? ==> multiset(r) == multiset(db.requests)
    ensures Entities.KeepsCounts(r, db.requests, (q: KycRequest) => status.None? || q.status == status.value)
  {
    var kept := if status.None? then db.requests
                else Entities.Filter(db.requests, (q: KycRequest) => q.status == status.value);
    var r := SortBy(kept, CreatedKey, true);
    assert forall q :: q in r <==> q in kept by {
      forall q ensures q in r <==> q in kept {
        assert q in r <==> q in multiset(r);
        assert q in kept <==> q in multiset(kept);
      }
    }
    var keep := (q: KycRequest) => status.None? || q.status == status.value;
    assert Entities.KeepsCounts(kept, db.requests, keep) by {
      if status.Some? {
        assert Entities.KeepsCounts(kept, db.requests, (q: KycRequest) => q.status == status.value);
      }
    }
    Entities.KeepsCountsReordered(r, kept, db.requests, keep);
    r
  }

  /** Every transition keeps every request consistent: a pending request
      has no review, a reviewed one is approved or rejected. */
  lemma TransitionsKeepConsistent(db: KycDb, id: string, d: KycDraft, seller: string, admin: string,
                                  notes: Option<string>, reason: string, now: int,
                                  e1: Option<string>, e2: Option<string>)
    requires AllConsistent(db)
    ensures SubmitRequest(db, id, seller, d, now, e1).Ok? ==> AllConsistent(SubmitRequest(db, id, seller, d, now, e1).value.0)
    ensures ResubmitRequest(db, id, d, e1).Ok? ==> AllConsistent(ResubmitRequest(db, id, d, e1).value.0)
    ensures AllConsistent(Approve(db, id, seller, admin, notes, now, e1, e2).0)
    ensures AllConsistent(Reject(db, id, admin, reason, now, e1).0)
  {
    var i := IndexOf(db.requests, id);
    if i < |db.requests| {
      assert Consistent(db.requests[i]);
    }
  }

  /** A rejected request sent again is pending and unreviewed, with its id,
      seller and creation time kept. */
  lemma RejectThenResubmit(db: KycDb, id: string, admin: string, reason: string, now: int, d: KycDraft)
    requires IndexOf(db.requests, id) < |db.requests|
    ensures var rejected := Reject(db, id, admin, reason, now, None).0;
            var i := IndexOf(db.requests, id);
            && rejected.requests[i].status == KycRejected
            && ResubmitRequest(rejected, id, d, None).Ok?
            && var q := ResubmitRequest(rejected, id, d, None).value.1;
               q.status == KycPending && q.adminNotes.None? && q.reviewedBy.None? && q.reviewedAt.None?
               && q.sellerId == db.requests[i].sellerId && q.createdAt == db.requests[i].createdAt
  {
    var rejected := Reject(db, id, admin, reason, now, None).0;
    var i := IndexOf(db.requests, id);
    assert rejected.requests[..i] == db.requests[..i];
    assert forall j :: 0 <= j < i ==> rejected.requests[j].id != id;
    assert IndexOf(rejected.requests, id) == i by {
      IndexOfFirst(rejected.requests, id, i);
    }
  }

  /** The first row with an id is found wherever it sits. */
  lemma {:induction false} IndexOfFirst(rs: seq<KycRequest>, id: string, i: nat)
    requires i < |rs| && rs[i].id == id
    requires forall j :: 0 <= j < i ==> rs[j].id != id
    ensures IndexOf(rs, id) == i
    decreases i
  {
    if i > 0 {
      IndexOfFirst(rs[1..], id, i - 1);
    }
  }

  // ---- KYCRequestModal -----------------------------------------------------

  /** Largest photo accepted: 5 MB. */
  const MaxPhotoBytes: int := 5 * 1024 * 1024

  /** The alerts of the form. */
  datatype KycAlert =
    | PhotoTooLarge
    | NotAnImage
    | IdCardMissing
    | SelfieMissing
    | WhatsappMissing
    | IdCardUploadFailed
    | SelfieUploadFailed
    | SubmitFailed(message: string)

  function AlertText(a: KycAlert): string {
    match a
    case PhotoTooLarge => "La photo ne doit pas dépasser 5MB"
    case NotAnImage => "Veuillez uploader une image (JPG, PNG)"
    case IdCardMissing => "Veuillez ajouter une photo de votre carte d'identité"
    case SelfieMissing => "Veuillez ajouter un selfie avec votre pièce d'identité"
    case WhatsappMissing => "Veuillez entrer votre numéro WhatsApp"
    case IdCardUploadFailed => "Erreur lors de l'upload de la carte d'identité"
    case SelfieUploadFailed => "Erreur lors de l'upload du selfie"
    case SubmitFailed(m) => "Erreur lors de la soumission: " + m
  }

  /** A file picked in the form: its size in bytes and its MIME type. */
  datatype Photo = Photo(size: int, mime: string)

  /** handleFileSelect's checks: the size first, then the type. */
  function PhotoError(p: Photo): (e: Option<KycAlert>)
    ensures e.None? <==> p.size <= MaxPhotoBytes && StartsWith(p.mime, "image/")
    ensures p.size > MaxPhotoBytes ==> e == Some(PhotoTooLarge)
    ensures p.size <= MaxPhotoBytes && e.Some? ==> e == Some(NotAnImage)
  {
    if p.size > MaxPhotoBytes then Some(PhotoTooLarge)
    else if !StartsWith(p.mime, "image/") then Some(NotAnImage)
    else None
  }

  /** The form: the two chosen photos, the typed fields and the error. */
  datatype KycForm = KycForm(idCard: Option<Photo>, selfie: Option<Photo>,
                             whatsapp: string, notes: string, error: Option<KycAlert>)

  datatype Slot = IdCardSlot | SelfieSlot

  /** handleFileSelect: an accepted photo fills its slot and clears the
      error; a refused one sets the error and fills nothing. */
  function SelectPhoto(f: KycForm, slot: Slot, p: Photo): (r: KycForm)
    ensures PhotoError(p).Some? ==> r == f.(error := PhotoError(p))
    ensures PhotoError(p).None? ==> r.error.None? && r.whatsapp == f.whatsapp && r.notes == f.notes
    ensures PhotoError(p).None? ==> (if slot == IdCardSlot then r.idCard == Some(p) && r.selfie == f.selfie
                                     else r.selfie == Some(p) && r.idCard == f.idCard)
  {
    match PhotoError(p)
    case Some(e) => f.(error := Some(e))
    case None =>
      if slot == IdCardSlot then f.(idCard := Some(p), error := None)
      else f.(selfie := Some(p), error := None)
  }

  /** The first check handleSubmit fails, in its order: the ID card and the
      selfie (only without an earlier request), then the WhatsApp number. */
  function FormError(f: KycForm, existing: Option<KycRequest>): (e: Option<KycAlert>)
    ensures e.None? <==> (existing.Some? || (f.idCard.Some? && f.selfie.Some?)) && !Blank(Trim(f.whatsapp))
    ensures e.Some? ==> e.value in {IdCardMissing, SelfieMissing, WhatsappMissing}
    ensures existing.None? && f.idCard.None? ==> e == Some(IdCardMissing)
  {
    if f.idCard.None? && existing.None? then Some(IdCardMissing)
    else if f.selfie.None? && existing.None? then Some(SelfieMissing)
    else if Blank(Trim(f.whatsapp)) then Some(WhatsappMissing)
    else None
  }

  /** `notes.trim() || undefined`. */
  function NotesOf(notes: string): (r: Option<string>)
    ensures r.Some? <==> Trim(notes) != []
    ensures r.Some? ==> r.value == Trim(notes) && !Blank(r.value)
  {
    TrimNotBlank(notes);
    if Trim(notes) == [] then None else Some(Trim(notes))
  }

  /** The result of one submit: the database after it, the error the form
      shows, and whether it closed. */
  datatype KycSubmit = KycSubmit(db: KycDb, error: Option<KycAlert>, closed: bool)

  /** The request the form writes: a chosen photo's upload replaces the
      earlier request's URL; the number is trimmed. */
  function DraftOf(f: KycForm, existing: Option<KycRequest>, idCardUpload: string, selfieUpload: string)
    : (d: KycDraft)
    ensures d.idCardUrl == if f.idCard.Some? then Some(idCardUpload)
                           else if existing.Some? then existing.value.idCardUrl else None
    ensures d.selfieUrl == if f.selfie.Some? then Some(selfieUpload)
                           else if existing.Some? then existing.value.selfieUrl else None
    ensures d.whatsapp == Trim(f.whatsapp) && d.notes == NotesOf(f.notes)
  {
    var earlierId := if existing.Some? then existing.value.idCardUrl else None;
    var earlierSelfie := if existing.Some? then existing.value.selfieUrl else None;
    KycDraft(if f.idCard.Some? then Some(idCardUpload) else earlierId,
             if f.selfie.Some? then Some(selfieUpload) else earlierSelfie,
             Trim(f.whatsapp), NotesOf(f.notes))
  }

  /** The form sends a rejected earlier request again, and creates a new
      request in every other case. */
  predicate Resubmits(existing: Option<KycRequest>) {
    existing.Some? && existing.value.status == KycRejected
  }

  /** Request ids are a primary key. */
  predicate UniqueIds(rs: seq<KycRequest>) {
    forall i, j :: 0 <= i < j < |rs| ==> rs[i].id != rs[j].id
  }

  /** The write handleSubmit makes once the checks and uploads passed. */
  function WriteRequest(db: KycDb, existing: Option<KycRequest>, seller: string, d: KycDraft,
                        newId: string, now: int, writeError: Option<string>): (r: Result<(KycDb, KycRequest)>)
    requires UniqueIds(db.requests)
    requires existing.Some? ==> existing.value in db.requests
    ensures r.Err? <==> writeError.Some?
    ensures r.Ok? ==> r.value.1 in r.value.0.requests && r.value.1.status == KycPending
                      && r.value.1.whatsapp == d.whatsapp
                      && (r.value.1.notes.Some? <==> d.notes.Some? || (Resubmits(existing) && existing.value.notes.Some?))
    ensures r.Ok? && Resubmits(existing) ==>
              |r.value.0.requests| == |db.requests| && r.value.1.id == existing.value.id
              && r.value.1.sellerId == existing.value.sellerId
    ensures r.Ok? && !Resubmits(existing) ==>
              r.value.0.requests == db.requests + [r.value.1] && r.value.1.sellerId == seller
  {
    if Resubmits(existing) then
      var k :| 0 <= k < |db.requests| && db.requests[k] == existing.value;
      IndexOfFirst(db.requests, existing.value.id, k);
      var r := ResubmitRequest(db, existing.value.id, d, writeError);
      assert r.Ok? ==> r.value.0.requests[k] == r.value.1;
      r
    else
      var r := SubmitRequest(db, newId, seller, d, now, writeError);
      assert r.Ok? ==> r.value.0.requests[|db.requests|] == r.value.1;
      r
  }

  /** The URL an upload returned ("" stands for none: it is read only
      after a successful upload). */
  function UrlOf(u: Result<string>): string {
    if u.Ok? then u.value else ""
  }

  /** handleSubmit. The uploads are the storage results for the chosen
      photos (used only for a photo that was chosen). */
  function SubmitForm(db: KycDb, f: KycForm, existing: Option<KycRequest>, seller: string,
                      idCardUpload: Result<string>, selfieUpload: Result<string>,
                      newId: string, now: int, writeError: Option<string>): (r: KycSubmit)
    requires UniqueIds(db.requests)
    requires existing.Some? ==> existing.value in db.requests
    ensures FormError(f, existing).Some? ==> r == KycSubmit(db, FormError(f, existing), false)
    ensures r.closed <==> r.error.None?
    ensures r.closed <==> FormError(f, existing).None?
                          && (f.idCard.Some? ==> idCardUpload.Ok?) && (f.selfie.Some? ==> selfieUpload.Ok?)
                          && writeError.None?
    ensures FormError(f, existing).None? && f.idCard.Some? && idCardUpload.Err? ==>
              r == KycSubmit(db, Some(IdCardUploadFailed), false)
    ensures r.closed ==> r.db == WriteRequest(db, existing, seller,
                                              DraftOf(f, existing, UrlOf(idCardUpload), UrlOf(selfieUpload)),
                                              newId, now, writeError).value.0
    ensures !r.closed ==> r.db == db
  {
    match FormError(f, existing)
    case Some(e) => KycSubmit(db, Some(e), false)
    case None =>
      if f.idCard.Some? && idCardUpload.Err? then KycSubmit(db, Some(IdCardUploadFailed), false)
      else if f.selfie.Some? && selfieUpload.Err? then KycSubmit(db, Some(SelfieUploadFailed), false)
      else
        var d := DraftOf(f, existing, UrlOf(idCardUpload), UrlOf(selfieUpload));
        match WriteRequest(db, existing, seller, d, newId, now, writeError)
        case Err(m) => KycSubmit(db, Some(SubmitFailed(m)), false)
        case Ok((db', _)) => KycSubmit(db', None, true)
  }

  // ---- SellerDashboard: the KYC card ---------------------------------------

  /** What the KYC card shows. */
  datatype KycCard =
    | AskVerification
    | AwaitingReview
    | RejectedWith(reason: Option<string>)
    | VerifiedCard
    | NoKycMessage

  /** The card: a verified profile says so; otherwise no request offers the
      request button, a pending one waits, a rejected one shows the reason
      and the resubmit button, and an approved one (whose profile update
      did not happen) shows nothing. */
  function KycCardOf(verified: bool, request: Option<KycRequest>): (c: KycCard)
    ensures c == VerifiedCard <==> verified
    ensures c == AskVerification <==> !verified && request.None?
    ensures c == AwaitingReview <==> !verified && request.Some? && request.value.status == KycPending
    ensures c.RejectedWith? <==> !verified && request.Some? && request.value.status == KycRejected
    ensures c.RejectedWith? ==> c.reason == request.value.adminNotes
    ensures c == NoKycMessage <==> !verified && request.Some? && request.value.status == KycApproved
  {
    if verified then VerifiedCard
    else match request
      case None => AskVerification
      case Some(q) =>
        match q.status
        case KycPending => AwaitingReview
        case KycRejected => RejectedWith(q.adminNotes)
        case KycApproved => NoKycMessage
  }

  /** The form is given the seller's request only when it was rejected. */
  function FormRequest(request: Option<KycRequest>): (r: Option<KycRequest>)
    ensures r.Some? <==> request.Some? && request.value.status == KycRejected
    ensures r.Some? ==> r == request
  {
    if request.Some? && request.value.status == KycRejected then request else None
  }

  /** From the dashboard, a successful submit leaves the seller a pending
      request carrying the trimmed number. It rewrites the latest request
      exactly when the card showed it rejected, and otherwise adds one. */
  lemma DashboardSubmit(db: KycDb, f: KycForm, seller: string,
                        idCardUpload: Result<string>, selfieUpload: Result<string>, newId: string, now: int)
    requires UniqueIds(db.requests)
    ensures var request := LatestRequest(db.requests, seller);
            var r := SubmitForm(db, f, FormRequest(request), seller, idCardUpload, selfieUpload, newId, now, None);
            r.closed ==>
              && (exists q :: q in r.db.requests && q.sellerId == seller && q.status == KycPending
                              && q.whatsapp == Trim(f.whatsapp))
              && (KycCardOf(false, request).RejectedWith? ==> |r.db.requests| == |db.requests|)
              && (!KycCardOf(false, request).RejectedWith? ==> |r.db.requests| == |db.requests| + 1)
  {
    var request := LatestRequest(db.requests, seller);
    var existing := FormRequest(request);
    var d := DraftOf(f, existing, UrlOf(idCardUpload), UrlOf(selfieUpload));
    var w := WriteRequest(db, existing, seller, d, newId, now, None);
    assert w.value.1.sellerId == seller;
  }
}
