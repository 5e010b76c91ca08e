/** The transaction history page (src/pages/profile/TransactionHistory.tsx):
    which type filters each role is offered, the icon of each type, how an
    amount is displayed, and when the export button appears. */
module History {
  import opened Wrappers
  import opened Entities
  import opened Transactions
  import opened Invoices

  /** One filter button: `None` is the 'all' filter. */
  datatype FilterOption = FilterOption(value: Option<TxType>, caption: string, icon: string)

  const AllOption := FilterOption(None, "Tout", "\U{1F4CB}")

  /** The types of transaction the ledger records for a role: purchases for
      buyers, sales and withdrawals for sellers, commissions and withdrawals
      for affiliates. */
  predicate OwnsType(role: Role, kind: TxType) {
    match role
    case Buyer => kind == Purchase
    case Seller => kind == Sale || kind == Withdrawal
    case Affiliate => kind == Commission || kind == Withdrawal
    case _ => false
  }

  /** getFilterOptions: 'all' first, then one button per type the role owns.
      A missing profile gets only 'all'. */
  function FilterOptions(role: Option<Role>): (r: seq<FilterOption>)
    ensures |r| >= 1 && r[0] == AllOption
    ensures forall i :: 1 <= i < |r| ==> r[i].value.Some? && role.Some? && OwnsType(role.value, r[i].value.value)
    ensures role.Some? ==> forall k :: OwnsType(role.value, k) ==>
              exists i :: 1 <= i < |r| && r[i].value == Some(k)
    ensures forall i, j :: 0 <= i < j < |r| ==> r[i].value != r[j].value
  {
    if role == Some(Buyer) then
      var r := [AllOption, FilterOption(Some(Purchase), "Achats", TypeIcon("purchase"))];
      assert r[1].value == Some(Purchase);
      r
    else if role == Some(Seller) then
      var r := [AllOption, FilterOption(Some(Sale), "Ventes", TypeIcon("sale")),
                FilterOption(Some(Withdrawal), "Retraits", TypeIcon("withdrawal"))];
      assert r[1].value == Some(Sale) && r[2].value == Some(Withdrawal);
      r
    else if role == Some(Affiliate) then
      var r := [AllOption, FilterOption(Some(Commission), "Commissions", TypeIcon("commission")),
                FilterOption(Some(Withdrawal), "Retraits", TypeIcon("withdrawal"))];
      assert r[1].value == Some(Commission) && r[2].value == Some(Withdrawal);
      r
    else [AllOption]
  }

  const DefaultIcon := "\U{1F4C4}"

  /** getTypeIcon: a fixed icon per known type, the document icon otherwise. */
  function TypeIcon(kind: string): (r: string)
    ensures ParseTxType(kind).OtherType? <==> r == DefaultIcon
  {
    match ParseTxType(kind)
    case Purchase => "\U{1F6D2}"
    case Sale => "\U{1F4B5}"
    case Commission => "\U{1F4B0}"
    case Withdrawal => "\U{1F4B8}"
    case OtherType(_) => DefaultIcon
  }

  /** Known types have pairwise distinct icons. */
  lemma TypeIconInjective(a: TxType, b: TxType)
    requires !a.OtherType? && !b.OtherType?
    requires TypeIcon(a.Name()) == TypeIcon(b.Name())
    ensures a == b
  {
  }

  datatype Sign = NoSign | Plus | Minus

  /** What formatAmount renders: a sign, the magnitude and its colour. */
  datatype ShownAmount = ShownAmount(sign: Sign, magnitude: real, red: bool)

  /** formatAmount: purchases show the bare magnitude; other types show "-"
      in red for a negative amount and "+" in green otherwise. */
  function FormatAmount(amount: real, kind: string): (r: ShownAmount)
    ensures r.magnitude == Abs(amount)
    ensures kind == "purchase" <==> r.sign == NoSign
    ensures r.sign == Minus <==> kind != "purchase" && amount < 0.0
    ensures r.red <==> r.sign == Minus
  {
    if kind == "purchase" then ShownAmount(NoSign, Abs(amount), false)
    else if amount < 0.0 then ShownAmount(Minus, Abs(amount), true)
    else ShownAmount(Plus, Abs(amount), false)
  }

  /** What the page shows for a transaction the ledger wrote: purchases
      unsigned, credits with "+", and non-zero withdrawals with "-". With
      the displayed magnitude the displayed amount is exactly the stored one. */
  lemma DisplayedSignMatchesLedger(t: Transaction, requested: real)
    requires SignedAs(t, requested) && !t.kind.OtherType?
    ensures var shown := FormatAmount(t.amount, t.kind.Name());
            (t.kind == Purchase ==> shown.sign == NoSign)
            && (t.kind.IsCredit() ==> shown.sign == Plus)
            && (t.kind == Withdrawal ==> (shown.sign == Minus <==> requested != 0.0))
            && (shown.sign == Minus ==> -shown.magnitude == t.amount)
            && (shown.sign == Plus ==> shown.magnitude == t.amount)
  {
  }

  /** The CSV export button appears only when the list is non-empty. */
  function ExportShown(rows: seq<TxRow>): (r: bool)
    ensures r <==> rows != []
  {
    |rows| > 0
  }

  /** The base name handed to exportToCSV: the profile's role, or "user". */
  function ExportBaseName(role: Option<string>): (r: string)
    ensures |r| > |"historique-"| && r[..|"historique-"|] == "historique-"
    ensures Truthy(role) ==> r[|"historique-"|..] == role.value
  {
    "historique-" + OrElse(role, "user")
  }
}
