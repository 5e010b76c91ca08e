/** The documents built from ledger rows (src/services/invoiceService.ts):
    one PDF receipt per kind of transaction, the CSV export of the history,
    and the French label of a transaction type. Page layout is not modelled;
    a receipt is the record of the figures it prints. */
module Invoices {
  import opened Wrappers
  import opened Text
  import opened Transactions

  // ---- labels and document numbers ----------------------------------------

  const KnownLabels: set<string> := {"Achat", "Vente", "Commission", "Retrait"}

  /** `getTypeLabel`: the French name of a known type, any other type verbatim. */
  function TypeLabel(kind: string): (r: string)
    ensures ParseTxType(kind).OtherType? ==> r == kind
    ensures !ParseTxType(kind).OtherType? ==> r in KnownLabels
  {
    match ParseTxType(kind)
    case Purchase => "Achat"
    case Sale => "Vente"
    case Commission => "Commission"
    case Withdrawal => "Retrait"
    case OtherType(raw) => raw
  }

  /** Distinct known types get distinct labels, so a label names its type. */
  lemma TypeLabelInjective(a: TxType, b: TxType)
    requires !a.OtherType? && !b.OtherType?
    requires TypeLabel(a.Name()) == TypeLabel(b.Name())
    ensures a == b
  {
    assert TypeLabel(a.Name()) in KnownLabels;
    assert "Achat" != "Vente" && "Achat" != "Commission" && "Achat" != "Retrait";
    assert "Vente" != "Commission" && "Vente" != "Retrait" && "Commission" != "Retrait";
  }

  /** `id.substring(0, 8).toUpperCase()`: the number printed on every document. */
  function DocumentNumber(id: string): (r: string)
    ensures |r| == if |id| < 8 then |id| else 8
    ensures forall i :: 0 <= i < |r| ==> r[i] == UpperChar(id[i])
  {
    Upper(Take(id, 8))
  }

  /** The title of each kind of document; other types get no document. */
  function DocumentTitle(kind: TxType, id: string): (r: Option<string>)
    ensures r.Some? <==> !kind.OtherType?
    ensures r.Some? ==> |DocumentNumber(id)| <= |r.value|
                        && r.value[|r.value| - |DocumentNumber(id)|..] == DocumentNumber(id)
  {
    var prefix := match kind
      case Purchase => Some("FACTURE #ZWA-")
      case Sale => Some("RE\U{00C7}U DE VENTE #")
      case Commission => Some("RE\U{00C7}U COMMISSION #")
      case Withdrawal => Some("RE\U{00C7}U DE RETRAIT #")
      case OtherType(_) => None;
    if prefix.None? then None
    else
      var t := prefix.value + DocumentNumber(id);
      assert t[|t| - |DocumentNumber(id)|..] == DocumentNumber(id);
      Some(t)
  }

  /** Two kinds of document never share a title. */
  lemma DocumentTitlesDistinct(a: TxType, b: TxType, id: string)
    requires DocumentTitle(a, id).Some? && DocumentTitle(a, id) == DocumentTitle(b, id)
    ensures a == b
  {
    var t := DocumentTitle(a, id).value;
    var n := DocumentNumber(id);
    if a.Purchase? || b.Purchase? {
      assert t[0] == 'F' <==> a.Purchase?;
      assert t[0] == 'F' <==> b.Purchase?;
    } else {
      // Sale, Commission and Withdrawal titles differ at index 5 or 8.
      assert t[5] == 'C' <==> a.Commission?;
      assert t[5] == 'C' <==> b.Commission?;
      if !a.Commission? {
        assert t[8] == 'V' <==> a.Sale?;
        assert t[8] == 'V' <==> b.Sale?;
      }
    }
  }

  // ---- receipts -----------------------------------------------------------

  /** The figures a PDF receipt prints. */
  datatype Receipt =
    | PurchaseInvoice(title: string, product: string, quantityText: Option<string>, total: real)
    | SaleReceipt(title: string, totalPrice: real, commissionLine: Option<real>, net: real,
                  balanceAfter: real)
    | CommissionReceipt(title: string, rate: Option<real>, earned: real, balanceAfter: real)
    | WithdrawalReceipt(title: string, channel: string, number: string, requested: real,
                        fee: real, net: real, balanceAfter: real)

  /** generatePurchaseInvoice. `quantityText` is `Some(q)` when the row has a
      quantity, printed with `toString`, and `None` for the printed default "1". */
  function PurchaseInvoiceOf(row: TxRow): (r: Receipt)
    ensures r.PurchaseInvoice? && r.total == Abs(row.tx.amount)
    ensures r.product == OrElse(row.tx.productName, "Produit")
  {
    PurchaseInvoice("FACTURE #ZWA-" + DocumentNumber(row.id),
                    OrElse(row.tx.productName, "Produit"),
                    if row.tx.quantity.Some? then Some(IntToString(row.tx.quantity.value)) else None,
                    Abs(row.tx.amount))
  }

  /** The gross price a sale receipt reconstructs: unit price (missing = 0)
      times quantity (missing or 0 = 1). */
  function GrossOf(t: Transaction): real {
    OrZero(t.unitPrice) * (OrOne(t.quantity) as real)
  }

  /** generateSaleReceipt: the commission is recovered as gross minus net and
      printed only when positive. */
  function SaleReceiptOf(row: TxRow): (r: Receipt)
    ensures r.SaleReceipt? && r.net == row.tx.amount
    ensures r.commissionLine.Some? <==> GrossOf(row.tx) > row.tx.amount
    ensures r.commissionLine.Some? ==> r.commissionLine.value + r.net == r.totalPrice
  {
    var total := GrossOf(row.tx);
    var commission := total - row.tx.amount;
    SaleReceipt("RE\U{00C7}U DE VENTE #" + DocumentNumber(row.id), total,
                if commission > 0.0 then Some(commission) else None,
                row.tx.amount, row.tx.balanceAfter)
  }

  /** generateCommissionReceipt. */
  function CommissionReceiptOf(row: TxRow): (r: Receipt)
    ensures r.CommissionReceipt? && r.earned == row.tx.amount && r.rate == row.tx.commissionRate
  {
    CommissionReceipt("RE\U{00C7}U COMMISSION #" + DocumentNumber(row.id),
                      row.tx.commissionRate, row.tx.amount, row.tx.balanceAfter)
  }

  /** generateWithdrawalReceipt: what reaches the phone is the requested
      amount minus the fee (missing = 0). */
  function WithdrawalReceiptOf(row: TxRow): (r: Receipt)
    ensures r.WithdrawalReceipt? && r.requested == Abs(row.tx.amount)
    ensures r.net + r.fee == r.requested && r.fee == OrZero(row.tx.withdrawalFee)
  {
    var fee := OrZero(row.tx.withdrawalFee);
    WithdrawalReceipt("RE\U{00C7}U DE RETRAIT #" + DocumentNumber(row.id),
                      OrElse(row.tx.withdrawalMethod, "N/A"),
                      OrElse(row.tx.withdrawalNumber, "N/A"),
                      Abs(row.tx.amount), fee, Abs(row.tx.amount) - fee, row.tx.balanceAfter)
  }

  /** The download button of the history page: the document of the row's
      type; rows of other types produce nothing. */
  function DocumentOf(row: TxRow): (r: Option<Receipt>)
    ensures r.Some? <==> !row.tx.kind.OtherType?
    ensures r.Some? ==> Some(r.value.title) == DocumentTitle(row.tx.kind, row.id)
  {
    match row.tx.kind
    case Purchase => Some(PurchaseInvoiceOf(row))
    case Sale => Some(SaleReceiptOf(row))
    case Commission => Some(CommissionReceiptOf(row))
    case Withdrawal => Some(WithdrawalReceiptOf(row))
    case OtherType(_) => None
  }

  /** A sale recorded with net = gross - commission and unit price
      gross / quantity yields a receipt that prints that commission back,
      and no commission line when there was none. */
  lemma SaleReceiptRecoversCommission(row: TxRow, gross: real, commission: real, q: int)
    requires q != 0 && commission >= 0.0
    requires row.tx.unitPrice == Some(gross / (q as real)) && row.tx.quantity == Some(q)
    requires row.tx.amount == gross - commission
    ensures SaleReceiptOf(row).totalPrice == gross
    ensures SaleReceiptOf(row).commissionLine == if commission > 0.0 then Some(commission) else None
  {
    assert OrOne(row.tx.quantity) == q;
    assert GrossOf(row.tx) == gross / (q as real) * (q as real);
  }

  /** Withdrawals created by the service are free, so the receipt reports the
      full requested amount as received. */
  lemma WithdrawalReceiptOfCreated(balance: Option<real>, userId: string, amount: real,
                                   channel: string, phone: string, fmt: Formats,
                                   id: string, createdAt: int)
    requires amount >= 0.0
    requires CreateWithdrawal(balance, userId, amount, channel, phone, None, fmt).Ok?
    ensures var t := CreateWithdrawal(balance, userId, amount, channel, phone, None, fmt).value;
            var r := WithdrawalReceiptOf(TxRow(id, createdAt, t));
            r.net == amount && r.requested == amount && r.channel == OrElse(Some(channel), "N/A")
  {
  }

  // ---- CSV ----------------------------------------------------------------

  /** The cells joined by commas. */
  function Join(cells: seq<string>): string {
    if cells == [] then ""
    else if |cells| == 1 then cells[0]
    else cells[0] + "," + Join(cells[1..])
  }

  /** One CSV record: the joined cells and a line feed. */
  function Line(cells: seq<string>): string {
    Join(cells) + "\n"
  }

  /** The records one after the other. */
  function Lines(records: seq<seq<string>>): string {
    if records == [] then "" else Line(records[0]) + Lines(records[1..])
  }

  /** Every double quote written twice, as RFC 4180 requires inside a quoted field. */
  function EscapeQuotes(c: string): (r: string)
    ensures '"' !in c ==> r == c
    ensures |r| >= |c|
  {
    if c == [] then []
    else (if c[0] == '"' then "\"\"" else [c[0]]) + EscapeQuotes(c[1..])
  }

  /** The cell wrapper of exportToCSV as written: quotes around, nothing escaped. */
  function WrapAsWritten(c: string): string {
    "\"" + c + "\""
  }

  /** The cell wrapper RFC 4180 calls for. */
  function QuoteCell(c: string): (r: string)
    ensures '"' !in c ==> r == WrapAsWritten(c)
  {
    "\"" + EscapeQuotes(c) + "\""
  }

  function MapCells(cells: seq<string>, wrap: string -> string): (r: seq<string>)
    ensures |r| == |cells| && forall i :: 0 <= i < |r| ==> r[i] == wrap(cells[i])
  {
    seq(|cells|, i requires 0 <= i < |cells| => wrap(cells[i]))
  }

  const CsvHeaders: seq<string> := ["Date", "Type", "Description", "Montant (FCFA)",
                                    "Solde Apr\U{00E8}s (FCFA)"]

  /** The five cells of one exported row. `dateText` renders `created_at`
      the way `toLocaleString('fr-FR')` does. */
  function RowCells(row: TxRow, fmt: Formats, dateText: int -> string): (r: seq<string>)
    ensures |r| == |CsvHeaders|
    ensures r[1] == TypeLabel(row.tx.kind.Name()) && r[2] == OrElse(row.tx.description, "")
  {
    [dateText(row.createdAt), TypeLabel(row.tx.kind.Name()), OrElse(row.tx.description, ""),
     fmt.locale(row.tx.amount), fmt.locale(row.tx.balanceAfter)]
  }

  function EncodedRows(rows: seq<TxRow>, fmt: Formats, dateText: int -> string,
                       wrap: string -> string): seq<seq<string>>
  {
    seq(|rows|, i requires 0 <= i < |rows| => MapCells(RowCells(rows[i], fmt, dateText), wrap))
  }

  /** exportToCSV as written: the header line, then every row with its cells
      between double quotes. */
  function ExportCsvAsWritten(rows: seq<TxRow>, fmt: Formats, dateText: int -> string): string {
    Line(CsvHeaders) + Lines(EncodedRows(rows, fmt, dateText, WrapAsWritten))
  }

  /** exportToCSV with the quotes inside a cell doubled. */
  function ExportCsv(rows: seq<TxRow>, fmt: Formats, dateText: int -> string): string {
    Line(CsvHeaders) + Lines(EncodedRows(rows, fmt, dateText, QuoteCell))
  }

  /** The table a correct CSV reader should get back. */
  function ExportedTable(rows: seq<TxRow>, fmt: Formats, dateText: int -> string): seq<seq<string>> {
    [CsvHeaders] + seq(|rows|, i requires 0 <= i < |rows| => RowCells(rows[i], fmt, dateText))
  }

  // ---- an RFC 4180 reader (records end with a line feed) ------------------

  /** The rest of a quoted field, after its opening quote: the field's text
      and what follows the closing quote. */
  function ParseQuoted(s: string): (r: Option<(string, string)>)
    ensures r.Some? ==> |r.value.1| < |s|
  {
    if s == [] then None
    else if s[0] == '"' then
      if |s| >= 2 && s[1] == '"' then
        var (f, rest) :- ParseQuoted(s[2..]);
        Some(("\"" + f, rest))
      else Some(([], s[1..]))
    else
      var (f, rest) :- ParseQuoted(s[1..]);
      Some(([s[0]] + f, rest))
  }

  /** Characters an unquoted field may not contain. */
  predicate Special(c: char) {
    c == ',' || c == '\n' || c == '"'
  }

  /** A field that may be written without quotes. */
  predicate Plain(c: string) {
    forall i :: 0 <= i < |c| ==> !Special(c[i])
  }

  function ParseUnquoted(s: string): (r: (string, string))
    ensures |r.1| <= |s|
  {
    if s == [] || Special(s[0]) then ([], s)
    else
      var (f, rest) := ParseUnquoted(s[1..]);
      ([s[0]] + f, rest)
  }

  function ParseField(s: string): (r: Option<(string, string)>)
    ensures r.Some? ==> |r.value.1| <= |s|
  {
    if s != [] && s[0] == '"' then ParseQuoted(s[1..]) else Some(ParseUnquoted(s))
  }

  /** One record: fields separated by commas up to the line feed. */
  function ParseRecord(s: string): (r: Option<(seq<string>, string)>)
    ensures r.Some? ==> |r.value.1| < |s|
    decreases |s|
  {
    var (f, rest) :- ParseField(s);
    if rest == [] then None
    else if rest[0] == '\n' then Some(([f], rest[1..]))
    else if rest[0] == ',' then
      var (fs, more) :- ParseRecord(rest[1..]);
      Some(([f] + fs, more))
    else None
  }

  function ParseCsv(s: string): Option<seq<seq<string>>>
    decreases |s|
  {
    if s == [] then Some([])
    else
      var (record, rest) :- ParseRecord(s);
      var more :- ParseCsv(rest);
      Some([record] + more)
  }

  /** `e` is a way of writing the field `c`: quoted and escaped, or bare when plain. */
  predicate Encodes(e: string, c: string) {
    e == QuoteCell(c) || (Plain(c) && e == c)
  }

  /** A tail that ends a field: a separator or the end of the record. */
  predicate FieldEnd(tail: string) {
    tail != [] && (tail[0] == ',' || tail[0] == '\n')
  }

  /** A doubled quote inside a quoted cell reads as one quote. */
  lemma QuotedQuoteStep(rest: string, c: string, tail: string)
    requires ParseQuoted(rest) == Some((c, tail))
    ensures ParseQuoted("\"\"" + rest) == Some(("\"" + c, tail))
  {
    assert ("\"\"" + rest)[2..] == rest;
  }

  /** Any other character inside a quoted cell reads as itself. */
  lemma QuotedCharStep(ch: char, rest: string, c: string, tail: string)
    requires ch != '"' && ParseQuoted(rest) == Some((c, tail))
    ensures ParseQuoted([ch] + rest) == Some(([ch] + c, tail))
  {
    assert ([ch] + rest)[1..] == rest;
  }

  /** Escaping the first character of a cell and then the rest. */
  lemma EscapeStep(c: string, tail: string)
    requires |c| > 0
    ensures EscapeQuotes(c) + "\"" + tail
            == (if c[0] == '"' then "\"\"" else [c[0]]) + (EscapeQuotes(c[1..]) + "\"" + tail)
    ensures c == [c[0]] + c[1..]
  {
    var x := if c[0] == '"' then "\"\"" else [c[0]];
    assert EscapeQuotes(c) == x + EscapeQuotes(c[1..]);
    Regroup4(x, EscapeQuotes(c[1..]), "\"", tail);
  }

  lemma Regroup4<T>(a: seq<T>, b: seq<T>, c: seq<T>, d: seq<T>)
    ensures (a + b) + c + d == a + (b + c + d)
  {
  }

  lemma {:induction false} QuotedRoundTrip(c: string, tail: string)
    requires tail == [] || tail[0] != '"'
    ensures ParseQuoted(EscapeQuotes(c) + "\"" + tail) == Some((c, tail))
    decreases |c|
  {
    if |c| == 0 {
      assert EscapeQuotes(c) + "\"" + tail == "\"" + tail;
    } else {
      var rest := EscapeQuotes(c[1..]) + "\"" + tail;
      QuotedRoundTrip(c[1..], tail);
      EscapeStep(c, tail);
      if c[0] == '"' {
        QuotedQuoteStep(rest, c[1..], tail);
      } else {
        QuotedCharStep(c[0], rest, c[1..], tail);
      }
    }
  }

  lemma {:induction false} UnquotedRoundTrip(c: string, tail: string)
    requires Plain(c) && (tail == [] || Special(tail[0]))
    ensures ParseUnquoted(c + tail) == (c, tail)
    decreases |c|
  {
    if c == [] {
      assert c + tail == tail;
    } else {
      assert (c + tail)[1..] == c[1..] + tail;
      UnquotedRoundTrip(c[1..], tail);
      assert [c[0]] + c[1..] == c;
    }
  }

  lemma FieldRoundTrip(e: string, c: string, tail: string)
    requires Encodes(e, c) && FieldEnd(tail)
    ensures ParseField(e + tail) == Some((c, tail))
  {
    if e == QuoteCell(c) {
      assert e + tail == "\"" + (EscapeQuotes(c) + "\"" + tail);
      QuotedRoundTrip(c, tail);
    } else {
      if c != [] {
        assert (e + tail)[0] == c[0];
      }
      UnquotedRoundTrip(c, tail);
    }
  }

  predicate EncodesAll(encoded: seq<string>, cells: seq<string>) {
    |encoded| == |cells| && forall i :: 0 <= i < |cells| ==> Encodes(encoded[i], cells[i])
  }

  lemma {:induction false} RecordRoundTrip(encoded: seq<string>, cells: seq<string>, rest: string)
    requires |cells| >= 1 && EncodesAll(encoded, cells)
    ensures ParseRecord(Line(encoded) + rest) == Some((cells, rest))
    decreases |cells|
  {
    var s := Line(encoded) + rest;
    if |cells| == 1 {
      assert Join(encoded) == encoded[0];
      assert s == encoded[0] + ("\n" + rest);
      FieldRoundTrip(encoded[0], cells[0], "\n" + rest);
      assert ("\n" + rest)[1..] == rest;
      assert [cells[0]] == cells;
    } else {
      var tail := "," + (Line(encoded[1..]) + rest);
      assert s == encoded[0] + tail;
      FieldRoundTrip(encoded[0], cells[0], tail);
      assert tail[1..] == Line(encoded[1..]) + rest;
      RecordRoundTrip(encoded[1..], cells[1..], rest);
      assert [cells[0]] + cells[1..] == cells;
    }
  }

  lemma {:induction false} LinesRoundTrip(encoded: seq<seq<string>>, table: seq<seq<string>>)
    requires |encoded| == |table|
    requires forall i :: 0 <= i < |table| ==> |table[i]| >= 1 && EncodesAll(encoded[i], table[i])
    ensures ParseCsv(Lines(encoded)) == Some(table)
    decreases |table|
  {
    if table != [] {
      var rest := Lines(encoded[1..]);
      RecordRoundTrip(encoded[0], table[0], rest);
      LinesRoundTrip(encoded[1..], table[1..]);
      assert Line(encoded[0]) != [];
      assert [table[0]] + table[1..] == table;
    }
  }

  lemma HeadersPlain()
    ensures forall i :: 0 <= i < |CsvHeaders| ==> Plain(CsvHeaders[i])
  {
    forall i | 0 <= i < |CsvHeaders|
      ensures Plain(CsvHeaders[i])
    {
      var h := CsvHeaders[i];
      assert forall j :: 0 <= j < |h| ==> h[j] != ',' && h[j] != '\n' && h[j] != '"';
    }
  }

  /** Every exported row is written as a faithful encoding of its cells. */
  lemma RowsEncoded(rows: seq<TxRow>, fmt: Formats, dateText: int -> string)
    ensures var e := EncodedRows(rows, fmt, dateText, QuoteCell);
            |e| == |rows| &&
            forall i :: 0 <= i < |rows| ==>
              |RowCells(rows[i], fmt, dateText)| >= 1
              && EncodesAll(e[i], RowCells(rows[i], fmt, dateText))
  {
  }

  /** With quotes doubled, a CSV reader gets back exactly the header and the
      rows' cells, whatever text the descriptions hold. */
  lemma ExportCsvRoundTrip(rows: seq<TxRow>, fmt: Formats, dateText: int -> string)
    ensures ParseCsv(ExportCsv(rows, fmt, dateText)) == Some(ExportedTable(rows, fmt, dateText))
  {
    var e := EncodedRows(rows, fmt, dateText, QuoteCell);
    var cells := seq(|rows|, i requires 0 <= i < |rows| => RowCells(rows[i], fmt, dateText));
    RowsEncoded(rows, fmt, dateText);
    LinesRoundTrip(e, cells);
    HeadersPlain();
    RecordRoundTrip(CsvHeaders, CsvHeaders, Lines(e));
    var doc := Line(CsvHeaders) + Lines(e);
    assert doc == ExportCsv(rows, fmt, dateText);
    assert doc != [];
    assert ParseCsv(doc) == Some([CsvHeaders] + cells);
  }

  /** As written, the export is correct as long as no cell holds a double quote. */
  lemma ExportAsWrittenWithoutQuotes(rows: seq<TxRow>, fmt: Formats, dateText: int -> string)
    requires forall i, j :: 0 <= i < |rows| && 0 <= j < |CsvHeaders| ==>
               '"' !in RowCells(rows[i], fmt, dateText)[j]
    ensures ExportCsvAsWritten(rows, fmt, dateText) == ExportCsv(rows, fmt, dateText)
    ensures ParseCsv(ExportCsvAsWritten(rows, fmt, dateText)) == Some(ExportedTable(rows, fmt, dateText))
  {
    var asWritten := EncodedRows(rows, fmt, dateText, WrapAsWritten);
    var quoted := EncodedRows(rows, fmt, dateText, QuoteCell);
    forall i | 0 <= i < |rows|
      ensures asWritten[i] == quoted[i]
    {
      var c := RowCells(rows[i], fmt, dateText);
      assert forall j :: 0 <= j < |c| ==> WrapAsWritten(c[j]) == QuoteCell(c[j]);
    }
    assert asWritten == quoted;
    ExportCsvRoundTrip(rows, fmt, dateText);
  }

  /** A character other than a quote is copied into the field being read. */
  lemma QuotedCons(c: char, s: string)
    requires c != '"'
    ensures ParseQuoted([c] + s) == if ParseQuoted(s).None? then None
            else Some(([c] + ParseQuoted(s).value.0, ParseQuoted(s).value.1))
  {
    assert ([c] + s)[1..] == s;
  }

  /** A cell holding a double quote, such as the description of a purchase
      of a product named `Ecran 24" HD`, breaks the as-written record: the
      reader takes that quote for the end of the field and then finds text
      where a separator must stand. */
  lemma ExportAsWrittenBreaks()
    ensures ParseRecord(Line(MapCells(["24\" HD"], WrapAsWritten))) == None
  {
    var line := Line(MapCells(["24\" HD"], WrapAsWritten));
    assert line == "\"24\" HD\"\n";
    var s3 := "\" HD\"\n";
    assert ParseQuoted(s3) == Some(([], s3[1..]));
    QuotedCons('4', s3);
    assert ['4'] + [] == "4";
    QuotedCons('2', "4" + s3);
    assert ['2'] + "4" == "24";
    assert ParseQuoted("4" + s3) == Some(("4", s3[1..]));
    assert ParseQuoted("24" + s3) == Some(("24", s3[1..]));
    assert line[1..] == "24" + s3;
    assert ParseField(line) == Some(("24", s3[1..]));
    assert s3[1..][0] == ' ';
  }
}
