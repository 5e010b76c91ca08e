/** The validation chains of the profile and payment forms: the store editor
    (src/pages/seller/EditStore.tsx), the account settings
    (src/pages/profile/AccountSettings.tsx), the withdrawal request
    (src/components/finance/WithdrawalRequestModal.tsx), the checkout
    (src/components/orders/CheckoutModal.tsx) and the password change
    (src/pages/profile/components/ChangePasswordModal.tsx). Database and
    authentication answers are parameters. */
module Forms {
  import opened Wrappers
  import opened Text
  import opened Entities
  import opened Phone
  import opened Slug
  import Transactions

  /** A form field as written to the database: null exactly when the field
      is empty, the field itself otherwise. */
  predicate StoredAs(column: Option<string>, field: string) {
    (column.None? <==> field == "") && (column.Some? ==> column.value == field)
  }

  lemma EmptyToNullStores(field: string)
    ensures StoredAs(EmptyToNull(field), field)
  {
  }

  /** What a save handler does: nothing (no signed-in user), refuse with an
      alert, or write the given update. */
  datatype Save<U> = Ignored | Refused(alert: Alert) | Write(update: U)

  /** The alerts a save can raise; AlertText gives the words shown. */
  datatype Alert = StorePhoneFormat | AccountPhoneFormat | DuplicateNumber(role: Role)

  // Image uploads (store avatar and banner).

  datatype FileInfo = FileInfo(mime: string, size: int)

  const MaxImageBytes: int := 5 * 1024 * 1024
  const NotAnImage := "❌ Veuillez sélectionner une image valide"
  const ImageTooLarge := "❌ L'image ne doit pas dépasser 5MB"

  /** The upload guard: the type is checked before the size; None lets the
      upload go ahead. */
  function ImageFileError(f: FileInfo): (r: Option<string>)
    ensures r.None? <==> StartsWith(f.mime, "image/") && f.size <= 5242880
    ensures !StartsWith(f.mime, "image/") ==> r == Some(NotAnImage)
    ensures StartsWith(f.mime, "image/") && f.size > 5242880 ==> r == Some(ImageTooLarge)
  {
    if !StartsWith(f.mime, "image/") then Some(NotAnImage)
    else if f.size > MaxImageBytes then Some(ImageTooLarge)
    else None
  }

  // The store editor's save.

  datatype StoreForm = StoreForm(storeName: string, bio: string, location: string,
                                 phone: string, avatarUrl: string, bannerUrl: string)

  datatype StoreUpdate = StoreUpdate(storeName: Option<string>, bio: Option<string>,
                                     location: Option<string>, phone: Option<string>,
                                     avatarUrl: Option<string>, bannerUrl: Option<string>,
                                     slug: Option<string>)

  /** handleSave of the store editor. */
  function SaveStore(signedIn: bool, form: StoreForm, storedSlug: Option<string>): (r: Save<StoreUpdate>)
    ensures !signedIn <==> r.Ignored?
    ensures signedIn && !ValidPhone(form.phone) ==> r == Refused(StorePhoneFormat)
    ensures r.Write? <==> signedIn && ValidPhone(form.phone)
    ensures r.Write? ==>
              StoredAs(r.update.storeName, form.storeName) && StoredAs(r.update.bio, form.bio)
              && StoredAs(r.update.location, form.location) && StoredAs(r.update.phone, form.phone)
              && StoredAs(r.update.avatarUrl, form.avatarUrl) && StoredAs(r.update.bannerUrl, form.bannerUrl)
    ensures r.Write? && Truthy(storedSlug) ==> r.update.slug == storedSlug
    ensures r.Write? && !Truthy(storedSlug) && r.update.slug.Some? ==> WellFormedSlug(r.update.slug.value)
  {
    if !signedIn then Ignored
    else if form.phone != "" && !ValidPhone(form.phone) then Refused(StorePhoneFormat)
    else
      Write(StoreUpdate(EmptyToNull(form.storeName), EmptyToNull(form.bio), EmptyToNull(form.location),
                        EmptyToNull(form.phone), EmptyToNull(form.avatarUrl), EmptyToNull(form.bannerUrl),
                        StoreSlug(storedSlug, form.storeName)))
  }

  /** The answer to the profile update: an alert, and the public store page
      to go to on success. */
  function StoreSaved(userId: string, writeError: Option<string>): (r: (string, Option<string>))
    ensures r.1.Some? <==> writeError.None?
    ensures r.1.Some? ==> r.1.value == "/store/" + userId
    ensures writeError.Some? ==> r.0 == "Erreur lors de la sauvegarde : " + writeError.value
  {
    match writeError
    case Some(m) => ("Erreur lors de la sauvegarde : " + m, None)
    case None => ("✅ Informations de la boutique sauvegardées !", Some("/store/" + userId))
  }

  // The account settings.

  function RoleName(role: Role): string {
    match role
    case Buyer => "buyer"
    case Seller => "seller"
    case Affiliate => "affiliate"
    case Admin => "admin"
    case OtherRole(raw) => raw
  }

  /** Another account of the same role holding the number. */
  predicate Clash(p: Profile, phone: string, role: Role, userId: string) {
    p.phone == Some(phone) && p.role == role && p.id != userId
  }

  /** validatePhoneUniqueness: an empty number is unique; a failed query
      counts as not unique; otherwise no other profile of the same role
      holds the number. */
  function PhoneUnique(phone: string, role: Role, userId: string,
                       profiles: seq<Profile>, queryFailed: bool): (r: bool)
    ensures phone == "" ==> r
    ensures phone != "" && queryFailed ==> !r
    ensures phone != "" && !queryFailed ==>
              (r <==> forall i :: 0 <= i < |profiles| ==> !Clash(profiles[i], phone, role, userId))
  {
    var clashes := Filter(profiles, (p: Profile) => Clash(p, phone, role, userId));
    if phone == "" then true
    else if queryFailed then false
    else
      assert (exists i :: 0 <= i < |profiles| && Clash(profiles[i], phone, role, userId)) ==> clashes != [] by {
        if i :| 0 <= i < |profiles| && Clash(profiles[i], phone, role, userId) {
          assert profiles[i] in profiles;
        }
      }
      assert clashes != [] ==> exists i :: 0 <= i < |profiles| && Clash(profiles[i], phone, role, userId) by {
        if clashes != [] {
          assert clashes[0] in clashes;
          var i :| 0 <= i < |profiles| && profiles[i] == clashes[0];
        }
      }
      |clashes| == 0
  }

  datatype AccountForm = AccountForm(fullName: string, phone: string, avatarUrl: string)
  datatype AccountUpdate = AccountUpdate(fullName: Option<string>, phone: Option<string>, avatarUrl: Option<string>)

  /** The words of each alert; the duplicate alert names the role. */
  function AlertText(a: Alert): string {
    match a
    case StorePhoneFormat => "❌ Le numéro de téléphone n'est pas valide. Format attendu: +242 06 123 1244"
    case AccountPhoneFormat => "❌ Le numéro de téléphone n'est pas valide.\nFormat attendu: +242 06 123 1244"
    case DuplicateNumber(role) =>
      "❌ Ce numéro est déjà utilisé par un autre compte " + RoleName(role)
      + ".\n\nLe même numéro peut être utilisé sur différents types de comptes (buyer, seller, affiliate), mais pas 2 fois sur le même type."
  }

  /** handleSave of the account settings: the format is checked before the
      uniqueness query, and a refused number is never written. */
  function SaveAccount(signedIn: bool, form: AccountForm, role: Role, userId: string,
                       profiles: seq<Profile>, queryFailed: bool): (r: Save<AccountUpdate>)
    ensures !signedIn <==> r.Ignored?
    ensures signedIn && !ValidPhone(form.phone) ==> r == Refused(AccountPhoneFormat)
    ensures signedIn && ValidPhone(form.phone) && !PhoneUnique(form.phone, role, userId, profiles, queryFailed) ==>
              r == Refused(DuplicateNumber(role))
    ensures r.Write? <==> signedIn && ValidPhone(form.phone) && PhoneUnique(form.phone, role, userId, profiles, queryFailed)
    ensures r.Write? && form.phone != "" ==>
              !queryFailed && forall i :: 0 <= i < |profiles| ==> !Clash(profiles[i], form.phone, role, userId)
    ensures r.Write? ==>
              StoredAs(r.update.fullName, form.fullName) && StoredAs(r.update.phone, form.phone)
              && StoredAs(r.update.avatarUrl, form.avatarUrl)
  {
    if !signedIn then Ignored
    else if form.phone != "" && !ValidPhone(form.phone) then Refused(AccountPhoneFormat)
    else if form.phone != "" && !PhoneUnique(form.phone, role, userId, profiles, queryFailed) then Refused(DuplicateNumber(role))
    else Write(AccountUpdateOf(form))
  }

  /** The row written by handleSave: each empty field is stored as null. */
  function AccountUpdateOf(form: AccountForm): (u: AccountUpdate)
    ensures StoredAs(u.fullName, form.fullName) && StoredAs(u.phone, form.phone)
            && StoredAs(u.avatarUrl, form.avatarUrl)
  {
    AccountUpdate(EmptyToNull(form.fullName), EmptyToNull(form.phone), EmptyToNull(form.avatarUrl))
  }

  // The withdrawal request.

  const MinWithdrawal: real := 5000.0
  const InvalidAmount := "Montant invalide"
  const InsufficientBalance := "Solde insuffisant"
  const BelowMinimum := "Le retrait minimum est de 5,000 FCFA"
  const PhoneRequired := "Numéro de téléphone requis"

  /** The checks of handleSubmit, in their order; `amount` is `parseFloat`
      of the field (None for NaN). None lets the request go. */
  function WithdrawalError(amount: Option<real>, balance: real, phone: string): (r: Option<string>)
    ensures r.None? <==> amount.Some? && 5000.0 <= amount.value <= balance && !Blank(phone)
    ensures amount.None? || amount.value <= 0.0 ==> r == Some(InvalidAmount)
    ensures amount.Some? && 0.0 < amount.value && balance < amount.value ==> r == Some(InsufficientBalance)
    ensures amount.Some? && 0.0 < amount.value <= balance && amount.value < 5000.0 ==> r == Some(BelowMinimum)
    ensures amount.Some? && 5000.0 <= amount.value <= balance && Blank(phone) ==> r == Some(PhoneRequired)
  {
    if amount.None? || amount.value <= 0.0 then Some(InvalidAmount)
    else if amount.value > balance then Some(InsufficientBalance)
    else if amount.value < MinWithdrawal then Some(BelowMinimum)
    else if Trim(phone) == "" then Some(PhoneRequired)
    else None
  }

  /** The modal after a submit: the error shown, whether the request was
      sent, and whether onSuccess and onClose ran. */
  datatype WithdrawalOutcome = WithdrawalOutcome(error: string, sent: bool, closed: bool)

  /** handleSubmit. `balance` is the balance the modal was given;
      `walletBalance` is the one the service reads back. */
  function SubmitWithdrawal(amount: Option<real>, balance: real, userId: string, channel: string, phone: string,
                            walletBalance: Option<real>, insertError: Option<string>,
                            fmt: Transactions.Formats): (r: WithdrawalOutcome)
    ensures r.sent <==> WithdrawalError(amount, balance, phone).None?
    ensures r.sent ==> 5000.0 <= amount.value <= balance
    ensures r.closed <==> r.sent && OrZero(walletBalance) >= amount.value && insertError.None?
    ensures r.closed ==> r.error == ""
    ensures r.sent && !r.closed ==> StartsWith(r.error, "Erreur: ")
    ensures !r.sent ==> r.error == WithdrawalError(amount, balance, phone).value
  {
    match WithdrawalError(amount, balance, phone)
    case Some(e) => WithdrawalOutcome(e, false, false)
    case None =>
      match Transactions.CreateWithdrawal(walletBalance, userId, amount.value, channel, phone, insertError, fmt)
      case Err(m) =>
        assert StartsWith("Erreur: " + m, "Erreur: ") by {
          assert ("Erreur: " + m)[..|"Erreur: "|] == "Erreur: ";
        }
        WithdrawalOutcome("Erreur: " + m, true, false)
      case Ok(_) => WithdrawalOutcome("", true, true)
  }

  // The checkout.

  const CheckoutPhoneError := "Veuillez entrer un numéro de téléphone valide."
  const CheckoutLocationError := "Veuillez préciser votre quartier ou ville."

  /** handleSubmit of the checkout: the phone is checked before the
      location; the confirmed data are the fields as typed. The lengths are
      JavaScript's, in UTF-16 code units. */
  function Checkout(phone: string, location: string): (r: Result<(string, string)>)
    ensures r.Ok? <==> Utf16Length(phone) >= 8 && Utf16Length(location) >= 3
    ensures r.Ok? ==> r.value == (phone, location)
    ensures Utf16Length(phone) < 8 ==> r == Err(CheckoutPhoneError)
    ensures Utf16Length(phone) >= 8 && Utf16Length(location) < 3 ==> r == Err(CheckoutLocationError)
    ensures |phone| >= 8 && |location| >= 3 ==> r.Ok?
    ensures |phone| < 4 || |location| < 2 ==> r.Err?
  {
    if Utf16Length(phone) < 8 then Err(CheckoutPhoneError)
    else if Utf16Length(location) < 3 then Err(CheckoutLocationError)
    else Ok((phone, location))
  }

  // The password change.

  const TooShort := "Le nouveau mot de passe doit faire au moins 6 caractères"
  const Mismatch := "Les nouveaux mots de passe ne correspondent pas"
  const BadCredentials := "Invalid login credentials"
  const WrongCurrent := "Mot de passe actuel incorrect"
  const UpdateFailed := "Une erreur est survenue lors de la mise à jour"

  /** The state after handleUpdate (and its success timer): the error shown,
      whether the current password was re-checked, whether the update was
      asked for, and the three fields. */
  datatype PasswordOutcome = PasswordOutcome(error: Option<string>, reauthenticated: bool, updateAsked: bool,
                                             current: string, newPassword: string, confirm: string)

  /** `signInError` answers the re-authentication with the current
      password, `updateError` the update. */
  function ChangePassword(current: string, newPassword: string, confirm: string,
                          signInError: Option<string>, updateError: Option<string>): (r: PasswordOutcome)
    ensures Utf16Length(newPassword) < 6 ==> r.error == Some(TooShort) && !r.reauthenticated
    ensures Utf16Length(newPassword) >= 6 && newPassword != confirm ==> r.error == Some(Mismatch) && !r.reauthenticated
    ensures r.reauthenticated <==> Utf16Length(newPassword) >= 6 && newPassword == confirm
    ensures |newPassword| < 3 ==> !r.reauthenticated
    ensures r.updateAsked <==> r.reauthenticated && signInError.None?
    ensures r.error.None? <==> r.updateAsked && updateError.None?
    ensures r.error.None? ==> r.current == "" && r.newPassword == "" && r.confirm == ""
    ensures r.error.Some? ==> (r.current, r.newPassword, r.confirm) == (current, newPassword, confirm)
    ensures r.reauthenticated && signInError == Some(BadCredentials) ==>
              r.error == Some("Échec de vérification: " + WrongCurrent)
  {
    if Utf16Length(newPassword) < 6 then PasswordOutcome(Some(TooShort), false, false, current, newPassword, confirm)
    else if newPassword != confirm then PasswordOutcome(Some(Mismatch), false, false, current, newPassword, confirm)
    else if signInError.Some? then
      var m := signInError.value;
      PasswordOutcome(Some("Échec de vérification: " + (if m == BadCredentials then WrongCurrent else m)),
                      true, false, current, newPassword, confirm)
    else if updateError.Some? then
      PasswordOutcome(Some(if updateError.value != "" then updateError.value else UpdateFailed),
                      true, true, current, newPassword, confirm)
    else PasswordOutcome(None, true, true, "", "", "")
  }
}
