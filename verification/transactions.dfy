/** The wallet ledger (src/services/transactionService.ts): one signed row per
    purchase, sale, commission or withdrawal. Debits (purchases, withdrawals)
    are stored negative and credits (sales, commissions) positive, whatever
    sign the caller passes. */
module Transactions {
  import opened Wrappers
  import opened Text
  import opened Entities
  import opened Sorting

  datatype TxType = Purchase | Sale | Commission | Withdrawal | OtherType(raw: string) {
    function Name(): string {
      match this
      case Purchase => "purchase"
      case Sale => "sale"
      case Commission => "commission"
      case Withdrawal => "withdrawal"
      case OtherType(raw) => raw
    }

    /** Purchases and withdrawals take money out of the wallet. */
    predicate IsDebit() {
      Purchase? || Withdrawal?
    }

    /** Sales and commissions bring money in. */
    predicate IsCredit() {
      Sale? || Commission?
    }
  }

  function ParseTxType(s: string): (t: TxType)
    ensures t.Name() == s
    ensures t.OtherType? <==> s !in {"purchase", "sale", "commission", "withdrawal"}
  {
    if s == "purchase" then Purchase
    else if s == "sale" then Sale
    else if s == "commission" then Commission
    else if s == "withdrawal" then Withdrawal
    else OtherType(s)
  }

  datatype TxStatus = TxPending | TxCompleted | TxRejected

  /** Number renderings supplied by the JavaScript runtime: `String(x)` and
      `x.toLocaleString()`. They are left uninterpreted. */
  datatype Formats = Formats(show: real -> string, locale: real -> string)

  /** The payload of a ledger insert. `status` is absent when the database
      default applies. */
  datatype Transaction = Transaction(
    userId: string,
    kind: TxType,
    amount: real,
    balanceAfter: real,
    orderId: Option<string>,
    productName: Option<string>,
    productImage: Option<string>,
    quantity: Option<int>,
    unitPrice: Option<real>,
    commissionRate: Option<real>,
    withdrawalMethod: Option<string>,
    withdrawalNumber: Option<string>,
    withdrawalFee: Option<real>,
    description: Option<string>,
    status: Option<TxStatus>)

  /** A stored ledger row: the payload plus the id and creation time the
      database assigns. */
  datatype TxRow = TxRow(id: string, createdAt: int, tx: Transaction)

  function Abs(x: real): (r: real)
    ensures r >= 0.0 && (r == x || r == -x)
  {
    if x < 0.0 then -x else x
  }

  /** Stored amounts carry the sign of their type and the magnitude the
      caller asked for. */
  predicate SignedAs(t: Transaction, requested: real) {
    Abs(t.amount) == Abs(requested)
    && (t.kind.IsDebit() ==> t.amount <= 0.0)
    && (t.kind.IsCredit() ==> t.amount >= 0.0)
  }

  function EmptyPayload(userId: string, kind: TxType, amount: real, balanceAfter: real): Transaction {
    Transaction(userId, kind, amount, balanceAfter, None, None, None, None, None,
                None, None, None, None, None, None)
  }

  /** createPurchaseTransaction: a debit of the purchase amount. */
  function PurchaseTransaction(userId: string, orderId: string, amount: real, balanceAfter: real,
                               productName: string, productImage: string,
                               quantity: int, unitPrice: real): (t: Transaction)
    ensures t.kind == Purchase && t.userId == userId && SignedAs(t, amount)
    ensures t.description == Some("Achat de " + IntToString(quantity) + "x " + productName)
  {
    EmptyPayload(userId, Purchase, -Abs(amount), balanceAfter).(
      orderId := Some(orderId), productName := Some(productName),
      productImage := Some(productImage), quantity := Some(quantity),
      unitPrice := Some(unitPrice),
      description := Some("Achat de " + IntToString(quantity) + "x " + productName))
  }

  /** The note a sale description gets when the sale paid a commission. */
  function CommissionNote(commission: real, fmt: Formats): string {
    " (Commission: -" + fmt.locale(commission) + " FCFA)"
  }

  /** createSaleTransaction: a credit of the net amount. The description
      carries the commission note exactly when a non-zero commission is given. */
  function SaleTransaction(sellerId: string, orderId: string, amount: real, balanceAfter: real,
                           productName: string, productImage: string, quantity: int,
                           unitPrice: real, commissionAmount: Option<real>,
                           fmt: Formats): (t: Transaction)
    ensures t.kind == Sale && t.userId == sellerId && SignedAs(t, amount)
    ensures var base := "Vente de " + IntToString(quantity) + "x " + productName;
            t.description == Some(
              if commissionAmount.Some? && commissionAmount.value != 0.0
              then base + CommissionNote(commissionAmount.value, fmt)
              else base)
  {
    var base := "Vente de " + IntToString(quantity) + "x " + productName;
    EmptyPayload(sellerId, Sale, Abs(amount), balanceAfter).(
      orderId := Some(orderId), productName := Some(productName),
      productImage := Some(productImage), quantity := Some(quantity),
      unitPrice := Some(unitPrice),
      description := Some(
        if commissionAmount.Some? && commissionAmount.value != 0.0
        then base + CommissionNote(commissionAmount.value, fmt) else base))
  }

  /** createCommissionTransaction: a credit of the commission. */
  function CommissionTransaction(affiliateId: string, orderId: string, amount: real,
                                 balanceAfter: real, productName: string,
                                 commissionRate: real, totalSale: real,
                                 fmt: Formats): (t: Transaction)
    ensures t.kind == Commission && t.userId == affiliateId && SignedAs(t, amount)
    ensures t.commissionRate == Some(commissionRate)
  {
    EmptyPayload(affiliateId, Commission, Abs(amount), balanceAfter).(
      orderId := Some(orderId), productName := Some(productName),
      commissionRate := Some(commissionRate),
      description := Some("Commission " + fmt.show(commissionRate) + "% sur vente de "
                          + fmt.locale(totalSale) + " FCFA"))
  }

  /** createWithdrawalTransaction: a pending debit. */
  function WithdrawalTransaction(userId: string, amount: real, balanceAfter: real,
                                 channel: string, number: string, fee: real,
                                 fmt: Formats): (t: Transaction)
    ensures t.kind == Withdrawal && t.userId == userId && SignedAs(t, amount)
    ensures t.status == Some(TxPending) && t.withdrawalFee == Some(fee)
  {
    EmptyPayload(userId, Withdrawal, -Abs(amount), balanceAfter).(
      withdrawalMethod := Some(channel), withdrawalNumber := Some(number),
      withdrawalFee := Some(fee), status := Some(TxPending),
      description := Some("Retrait " + channel + " vers " + number + " (Frais: "
                          + fmt.show(fee) + " FCFA)"))
  }

  /** createWithdrawal: refused with "Solde insuffisant" when the wallet
      (missing = 0) holds less than the amount; otherwise a free withdrawal
      whose recorded balance is what remains. `insertError` is the database's
      answer to the insert. The wallet itself is not debited here. */
  function CreateWithdrawal(balance: Option<real>, userId: string, amount: real,
                            channel: string, phone: string, insertError: Option<string>,
                            fmt: Formats): (r: Result<Transaction>)
    ensures OrZero(balance) < amount ==> r == Err("Solde insuffisant")
    ensures OrZero(balance) >= amount && insertError.None? ==>
              r.Ok? && r.value.kind == Withdrawal && SignedAs(r.value, amount)
              && r.value.balanceAfter == OrZero(balance) - amount
              && r.value.balanceAfter >= 0.0
              && r.value.withdrawalFee == Some(0.0)
    ensures r.Ok? ==> OrZero(balance) >= amount && insertError.None?
  {
    var current := OrZero(balance);
    if current < amount then Err("Solde insuffisant")
    else if insertError.Some? then Err(insertError.value)
    else Ok(WithdrawalTransaction(userId, amount, current - amount, channel, phone, 0.0, fmt))
  }

  /** The filter of getTransactionsByUser: `None` is 'all'. */
  predicate Selected(row: TxRow, userId: string, filter: Option<TxType>) {
    row.tx.userId == userId && (filter.Some? ==> row.tx.kind == filter.value)
  }

  /** getTransactionsByUser: the user's rows, of the requested type unless the
      filter is 'all', newest first. */
  function TransactionsByUser(rows: seq<TxRow>, userId: string, filter: Option<TxType>): (r: seq<TxRow>)
    ensures forall x :: x in r ==> x in rows && Selected(x, userId, filter)
    ensures forall x :: x in rows && Selected(x, userId, filter) ==> x in r
    ensures Sorted(r, (x: TxRow) => x.createdAt as real, true)
    ensures KeepsCounts(r, rows, (x: TxRow) => Selected(x, userId, filter))
  {
    var mine := Filter(rows, (x: TxRow) => Selected(x, userId, filter));
    var r := SortBy(mine, (x: TxRow) => x.createdAt as real, true);
    assert forall x :: x in r <==> x in mine by {
      assert multiset(r) == multiset(mine);
      forall x
        ensures x in r <==> x in mine
      {
        assert x in r <==> x in multiset(r);
        assert x in mine <==> x in multiset(mine);
      }
    }
    r
  }
}
