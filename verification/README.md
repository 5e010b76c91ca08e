# zwa marketplace core, modelled in Dafny

zwa is a marketplace where buyers order products from sellers' stores, and affiliates promote products for a commission. An admin moderates sellers and sets the platform's rates. This project models the core of its web client, its services and its payment webhook as pure Dafny functions over immutable data, and proves what that code promises:

- **Orders.** An order is created against the product's stock, with a commission of `amount * rate / 100`. It moves through pending, paid, shipped and delivered, or is cancelled. Delivery checks a one-time code, credits the seller's and the affiliate's wallets, and writes the ledger transactions. The order lists are paged ten at a time and counted per status. The views derive the amounts, the buttons and the search over an order.
- **Payments.** The Yabetoo webhook finds the order by reference, intent id or charge id and marks it paid. The payment-success page retries its validation, and the return hook reads the gateway's query string.
- **Ledger.** Purchase, sale, commission and withdrawal transactions are kept with a sign per type. The history view formats and filters them. Receipts and the CSV export are built from them.
- **Catalogue.** The home page filters and sorts products, with accent-insensitive search. The product page clamps the quantity between the minimum order and the stock. Product cards compute the discount.
- **Affiliates.** Affiliates register, pause, resume and archive promotion links. The dashboard computes their statistics and mission lists.
- **Reviews.** Star ratings, the review form, the paged review list and the swipe carousel.
- **Chat.** Conversations between a buyer and a seller, unread counts, optimistic sending with rollback, realtime merging, offers made in the chat, and the `[label](url)` links inside messages.
- **Notifications.** The bell's bounded list and its unread badge.
- **Sellers.** KYC requests move through pending, approved and rejected. Stores can be followed and unfollowed, and the store page computes the owner's turnover. Sellers add and edit products with three image slots.
- **Admin.** Moderation toggles the verification flags and reviews KYC requests. The settings tab holds the platform rates.
- **Forms.** The validation chains of the store editor, the account settings, the withdrawal request, the checkout and the password change. These include Congo phone numbers (+242), store slugs, and `encodeURIComponent` for the sign-in redirect.
- **Routing.** The affiliate `ref` parameter, the route guards and the navigation chrome.

Conventions:

- Money is `real`, so sums and commissions are exact. Display rounding is a parameter or an explicit `Round`.
- Time is an `int` number of milliseconds, passed in as "now".
- The database, the network, Cloudinary and the payment gateway are not called. A query's result is an input, and a write is a new state value: a record of maps or sequences. A fault that the code checks is an input too: a flag, or the optional error message the call would return. The operation's result says what that fault leaves behind.
- JavaScript `x || d` on a number is modelled with `Option`: a missing value and `0` both fall back to `d`.
- `Array.prototype.sort` is stable, so every sort is `Sorting.SortBy`, a stable insertion sort. It is proved sorted, a permutation, and order-preserving among equal keys.
- Strings are `seq<char>`. JavaScript `.length` counts UTF-16 code units and is modelled as `Text.Utf16Length`.

`deliverOrder` (src/services/orderService.ts:298-470) does not check the order's status. Delivering the same order twice with its code would credit the wallets twice, and `Orders.DeliverTwiceCreditsTwice` states this. The order screens offer delivery only on a shipped order, and delivery moves it on, so this is recorded here and not as a finding.

## Model

| member | source | states |
|---|---|---|
| Orders.CreateOrder | src/services/orderService.ts:34-89 | refused exactly when the product tracks stock below the requested quantity ("rupture de stock" at zero, the count otherwise) or the insert fails; otherwise one pending order is added carrying the buyer, seller, product, amount, quantity, a commission of `amount * rate / 100`, the timeline defaulting to "7 jours", and the affiliate, notes, buyer phone, delivery location and expiry as given, with no code and no shipping time yet |
| Orders.UntrackedStockNeverBlocks | src/services/orderService.ts:49-63 | a product without a stock count (or not found) never refuses an order |
| Orders.Matching | src/services/orderService.ts:153-178 | an order is listed iff it belongs to the user in the given role and passes the status and search filters, each kept as often as it appears there; the list is newest first |
| Orders.Range | src/services/orderService.ts:177-179 | `range(from, to)` returns rows `from` to `to` inclusive, as far as they exist, and nothing when `to < from` |
| Orders.PaginatedOrders | src/services/orderService.ts:123-182 | page `page` holds at most `limit` matching orders, exactly the slice from `page*limit`, and the count is the number of matching orders |
| Orders.PageFacts | src/services/orderService.ts:138-139 | the `from`/`to` arithmetic asks for at most `limit` rows, all from the list |
| Orders.AffiliatesHideCancelled | src/services/orderService.ts:162-168 | without an explicit status an affiliate never sees a cancelled order |
| Orders.PagesUpTo | src/hooks/useOrders.ts:12-31 | the first `k` pages the infinite query loads are consecutive pages of the matching list |
| Orders.PageIsSlice | src/hooks/useOrders.ts:15-22 | page `i` is the slice of the matching list starting at `i * 10` |
| Orders.PagesTile | src/hooks/useOrders.ts:28-31 | pages `0..k-1` laid end to end are the first `k * limit` matching orders: paging neither skips nor repeats an order |
| Orders.LoadedCount | src/hooks/useOrders.ts:29 | the reduce over the loaded pages counts exactly the orders loaded |
| Orders.FetchOrdersPage | src/hooks/useOrders.ts:12-26 | no user gives an empty page with count 0; otherwise the service's rows with a missing count read as 0, and a service error is thrown |
| Orders.NextPageParam | src/hooks/useOrders.ts:28-31 | another page (numbered by the pages so far) is requested iff fewer orders are loaded than the last reported count |
| Orders.NextPageIffMore | src/hooks/useOrders.ts:28-31 | after `k` pages of 10 another page is requested exactly when more than `k * 10` orders match |
| Orders.OrderCounts | src/services/orderService.ts:184-198 | the counters are missing exactly when the query fails |
| Orders.TallyAllCounts | src/services/orderService.ts:200-217 | the forEach adds to each status counter the number of orders with that status and to revenue the paid, shipped and delivered amounts |
| Orders.StatusCountsBounded | src/services/orderService.ts:210-213 | each order bumps at most one status counter |
| Orders.OrderCountsMeaning | src/services/orderService.ts:184-221 | 'all' is the number of the user's orders; the pending, paid, shipped, delivered and cancelled counters each count exactly the orders of that status; the five never exceed 'all'; revenue sums the paid, shipped and delivered amounts |
| Orders.UpdateOrder | src/services/orderService.ts:243-278 | a missing order is an error; otherwise amount, quantity and the present optional fields (expiry, shipping timeline) are written and absent ones kept, the status and the order's ids and OTP are kept, and the commission is recomputed from the product's current rate (0 when the order could not be read) |
| Orders.OtpNumber | src/services/orderService.ts:282 | `floor(100000 + random * 900000)` lies in 100000..999999 |
| Orders.OtpText | src/services/orderService.ts:282 | the delivery code is six decimal digits not starting with 0 |
| Orders.ShipOrder | src/services/orderService.ts:280-296 | a missing order is an error and changes nothing; otherwise the order becomes shipped holding the returned code, with `shipped_at` set to the current time; nothing else changes |
| Orders.DeliverOrder | src/services/orderService.ts:298-470 | a missing order or a code different from the trimmed input fails with nothing written; success happens exactly when the code matches, the seller has a profile and neither the status nor the seller wallet write is refused, and then the order is delivered |
| Orders.Credits | src/services/orderService.ts:333-391 | the wallet writes change only profiles, and no profile appears or disappears |
| Orders.Settle | src/services/orderService.ts:395-466 | after the wallets, the purchase, sale and commission rows are appended to the ledger and nothing else changes |
| Orders.CreditsPayout | src/services/orderService.ts:345-391 | the seller gains amount less commission; a paid affiliate gains the commission; with no paid affiliate no other profile changes |
| Orders.DeliverSettles | src/services/orderService.ts:313-469 | a right code with no refused write marks the order delivered and settles it |
| Orders.DeliveryPayout | src/services/orderService.ts:345-391 | on success the seller gains amount less commission, a paid affiliate the commission, and the two credits add up to the order amount |
| Orders.DeliveryRecordsSale | src/services/orderService.ts:404-442 | the ledger gains a sale row for the seller signed with the net amount, quantity defaulting to 1 and unit price amount / quantity |
| Orders.SaleRecordAt | src/services/orderService.ts:431-442 | the records of a delivery contain the seller's sale row with the net amount, quantity and unit price |
| Orders.DeliverySaleReceipt | src/services/orderService.ts:431-442 | the receipt of the recorded sale shows the gross order amount and the commission line exactly when the commission is positive |
| Orders.DeliverTwiceCreditsTwice | src/services/orderService.ts:298-330 | no status is checked before delivery: delivering twice with the same code succeeds twice and credits the seller twice |
| Orders.SimulatePayment | src/services/orderService.ts:472-513 | a missing order is an error; otherwise the payment procedure confirms it as 'succeeded' |
| Orders.SimulateFullSale | src/services/orderService.ts:515-555 | a failed payment stops the run with its error; success leaves the order delivered and returns the code shipping produced |
| Orders.ShipAndDeliver | src/services/orderService.ts:527-542 | shipping a missing order stops with the row error; success leaves the order delivered with the shipping code |
| Orders.OtpTrimmed | src/services/orderService.ts:282-313 | the generated code survives the trim of the delivery input |
| Orders.FullSaleSucceedsIff | src/services/orderService.ts:515-555 | the full sale succeeds exactly when the payment is confirmed, the order is still there, its seller has a profile and no checked write is refused |
| Orders.ShipAndDeliverIff | src/services/orderService.ts:527-542 | shipping then delivering succeeds exactly when the order exists, its seller has a profile and no checked write is refused |
| Orders.ShippedOrderAwaitsCode | src/services/orderService.ts:280-313 | after shipping, the order holds the code in the trimmed form delivery compares, and profiles are untouched |
| Orders.UpdateOrderStatus | src/services/orderService.ts:559-588 | 'paid' goes through the payment procedure as 'completed'; any other status is written iff the order exists, with nothing else changed |
| OrderViews.FilterOrdersAsWritten | src/pages/orders/OrdersList.tsx:72-91 | as written the name branches read `order.profiles`, which the list rows never carry: an order is kept iff it is on the tab and, for a non-empty query, its id or product name contains it; the kept orders stay in their order, each kept as often as it appears there |
| OrderViews.FilterOrders | src/pages/orders/OrdersList.tsx:72-91 | corrected: an order is kept iff it is on the tab and, for a non-empty query, its id, product name or the joined counterpart's names contain it (lower-cased); the kept orders stay in their order, each kept as often as it appears there |
| OrderViews.TabThenSearch | src/pages/orders/OrdersList.tsx:72-91 | the tab filter followed by the search filter keeps, in order and each kept as often as it appears there, the orders on the tab that the search accepts |
| OrderViews.StoreSearchMissedAsWritten | src/pages/orders/OrdersList.tsx:85-86 | as written a buyer searching by the seller's store name finds nothing, corrected the order is found |
| OrderViews.AllTabShowsEverything | src/pages/orders/OrdersList.tsx:72-91 | the 'all' tab with an empty search lists every order in order |
| OrderViews.SearchNarrows | src/pages/orders/OrdersList.tsx:80-88 | a search only removes orders from the tab's list |
| OrderViews.GetTabCounts | src/pages/orders/OrdersList.tsx:93-102 | 'all' is the number of orders and the five status counts never exceed it |
| OrderViews.FiveCountsBounded | src/pages/orders/OrdersList.tsx:93-102 | an order has at most one of the five statuses |
| OrderViews.TabCountMatchesList | src/pages/orders/OrdersList.tsx:76-102 | the number on each status tab is the number of orders that tab lists before a search |
| OrderViews.GetSellerStats | src/pages/orders/OrdersList.tsx:104-116 | revenue is the sum of the delivered orders' amounts and 'delivered' counts them |
| OrderViews.DeliveryAddsRevenue | src/pages/orders/OrdersList.tsx:105-106 | delivering one undelivered order adds exactly its amount to the revenue |
| OrderViews.FindOrder | src/pages/orders/OrdersList.tsx:144 | `orders.find` returns an order of the list with the id iff one exists |
| OrderViews.HandleAction | src/pages/orders/OrdersList.tsx:118-150 | 'ship' ships and refetches; 'deliver' does nothing on a dismissed or empty prompt, otherwise calls deliverOrder and shows the success alert iff it succeeded; 'cancel' only shows the notice after confirmation; 'review' opens the form iff the order is in the list; other actions change nothing |
| OrderViews.StatusLabel | src/components/orders/OrderCard.tsx:33-48 | an unknown status is shown as its raw text |
| OrderViews.KnownLabelsDistinct | src/components/orders/OrderCard.tsx:33-46 | the five known statuses get five different badges |
| OrderViews.CardAction | src/components/orders/OrderCard.tsx:77-150 | a seller ships a paid order, delivers a shipped one and contacts the buyer of a delivered one; a buyer reviews a delivered order and contacts the seller of a shipped one; no other case has a button |
| OrderViews.NoCancelButton | src/components/orders/OrderCard.tsx:77-150 | no card offers to cancel, for either role |
| OrderViews.ShipButtonShips | src/components/orders/OrderCard.tsx:80-86 | the seller's button on a paid order, handed to handleAction, marks it shipped with a fresh code and refetches |
| OrderViews.DeliverButtonDelivers | src/components/orders/OrderCard.tsx:92-101 | the seller's button on a shipped order, given the buyer's code, delivers it and shows the success alert |
| OrderViews.DeliverSucceeds | src/services/orderService.ts:313-330 | the right code delivers an order whose seller has a profile |
| OrderViews.FormatDate | src/components/orders/OrderCard.tsx:52-75 | "Aujourd'hui" iff the same calendar day, "Hier" iff the day before, "Il y a N jours" for fewer than 7 whole days apart, the long date otherwise (at least 7 days apart) |
| OrderViews.PastDaysAgoPositive | src/components/orders/OrderCard.tsx:70-73 | a past date shown as "Il y a N jours" has N at least 1 |
| OrderViews.StatusSteps | src/components/orders/OrderDetailsModal.tsx:40-56 | a cancelled order shows two steps, both done, ending in the cancelled step; any other order the four steps pending, paid, shipped, delivered; the first is always done and done steps form a prefix |
| OrderViews.StepsTrackProgress | src/components/orders/OrderDetailsModal.tsx:41-46 | outside cancellation a step is ticked iff the order has reached it |
| OrderViews.ShippingTicksTimeline | src/components/orders/OrderDetailsModal.tsx:44 | shipping an order ticks its "Expédié" step |
| OrderViews.ContactPerson | src/components/orders/OrderDetailsModal.tsx:70-72 | a buyer contacts the seller (store name, else full name, else "Vendeur"), a seller the buyer (full name, else "Client"); the name is never empty |
| OrderViews.AmountsAsWritten | src/components/orders/OrderDetailsModal.tsx:112-131 | as written the total adds the commission to the order amount; the commission line shows iff it is positive |
| OrderViews.OrderAmounts | src/components/orders/OrderDetailsModal.tsx:112-131 | corrected: the total is the order amount the buyer is charged; the commission line shows iff it is positive |
| OrderViews.TotalOverstatedAsWritten | src/components/orders/OrderDetailsModal.tsx:130 | as written an order of 1000 with a commission of 50 shows a total of 1050 |
| OrderViews.TotalIsChargedAmount | src/services/orderService.ts:75 | the corrected total of an order created by createOrder is the amount passed to it |
| OrderViews.CommissionSlotAsWritten | src/components/orders/OrderDetailsModal.tsx:121-126 | as written a commission of exactly 0 renders a stray "0"; the row shows iff the commission is positive |
| OrderViews.CommissionSlotOf | src/components/orders/OrderDetailsModal.tsx:121-126 | corrected: the row shows iff the commission is positive and nothing stray is ever rendered |
| OrderViews.StrayZeroAsWritten | src/components/orders/OrderDetailsModal.tsx:121 | a commission of 0 prints "0" as written and nothing corrected |
| OrderViews.CommissionSlotMatchesAmounts | src/components/orders/OrderDetailsModal.tsx:121-131 | the corrected slot shows the amount block's commission line, and agrees with the as-written slot except at a zero commission |
| OrderViews.DetailsModal | src/components/orders/OrderDetailsModal.tsx:38-131 | as written: nothing is rendered iff the modal is closed or has no order; otherwise at least two steps with the first done, a subtotal of the order amount and a total of amount plus commission, a stray "0" exactly at a zero commission, and the seller as contact for a buyer and the buyer for a seller |
| OrderViews.DetailsModalAgainstCorrected | src/components/orders/OrderDetailsModal.tsx:112-131 | the rendered total exceeds the corrected total by the commission, and away from a zero commission the rendered commission row is the corrected one |
| Payments.DataOf | supabase/functions/yabetoo-webhook/index.ts:20 | the event data is `payload.data` when present, the payload itself otherwise |
| Payments.StatusOf | supabase/functions/yabetoo-webhook/index.ts:21 | the status is `data.status` when truthy, `data.event` otherwise |
| Payments.FirstTruthy | supabase/functions/yabetoo-webhook/index.ts:29-35 | a chain of JavaScript "or" operators yields a truthy value iff one of the operands is truthy, and then the first truthy one |
| Payments.CandidateSources | supabase/functions/yabetoo-webhook/index.ts:29-35 | the order id is looked for in six places |
| Payments.Candidate | supabase/functions/yabetoo-webhook/index.ts:29-40 | the candidate exists iff one of the six places holds one, and is that value with one leading "ext_" removed |
| Payments.Single | supabase/functions/yabetoo-webhook/index.ts:52-79 | `.single()` yields a row iff exactly one row matches, and that row matches |
| Payments.Lookup | supabase/functions/yabetoo-webhook/index.ts:47-80 | an order is found iff one of the three queries has a single hit; the id query (candidate longer than 20 UTF-16 units) wins, then the intent id, then the charge id in the payment URL, and the row found matches the winning query |
| Payments.HttpStatus | supabase/functions/yabetoo-webhook/index.ts:97-130 | the reply is 400 iff the update failed, 200 otherwise |
| Payments.Settled | supabase/functions/yabetoo-webhook/index.ts:107-115 | the updated row is paid, carries the gateway status and keeps the old intent id when the payload has none; nothing else changes |
| Payments.UpdateRows | supabase/functions/yabetoo-webhook/index.ts:107-115 | the update rewrites exactly the rows with the target's id |
| Payments.WebhookAsWritten | supabase/functions/yabetoo-webhook/index.ts:44-125 | as written: an unsuccessful event changes nothing; no order found changes nothing; only an order already 'paid' is skipped; a failed update changes nothing; otherwise the found order is settled |
| Payments.Webhook | supabase/functions/yabetoo-webhook/index.ts:44-125 | corrected: as above, but an order already paid, shipped or delivered is skipped; the table changes only on a received successful event |
| Payments.UpdateOneRow | supabase/functions/yabetoo-webhook/index.ts:115 | with unique ids the update touches the found row only and keeps ids unique |
| Payments.LookupAgain | supabase/functions/yabetoo-webhook/index.ts:47-80 | after the update the same payload finds the same order again |
| Payments.WebhookIdempotent | supabase/functions/yabetoo-webhook/index.ts:44-125 | corrected webhook: once a delivery has settled an order, every later delivery of the same payload is a no-op |
| Payments.WebhookAsWrittenIdempotent | supabase/functions/yabetoo-webhook/index.ts:100-104 | as written: a second delivery of a payload that settled an order finds it paid and changes nothing |
| Payments.WebhookNeverRegresses | supabase/functions/yabetoo-webhook/index.ts:100-115 | the corrected webhook never changes an order that is already paid, shipped or delivered |
| Payments.RedeliveryUnshipsAsWritten | supabase/functions/yabetoo-webhook/index.ts:101 | as written a repeated event for a shipped order sets it back to paid; the corrected guard keeps it shipped |
| Payments.RedeliveryExample | supabase/functions/yabetoo-webhook/index.ts:29-115 | such an event exists: a shipped order found by its reference |
| Payments.Validate | src/pages/orders/PaymentSuccess.tsx:20-63 | validation sends at most `retries + 1` status updates and always ends on success or error |
| Payments.ValidateFails | src/pages/orders/PaymentSuccess.tsx:20-63 | the page shows the error exactly when every round fails and the last fetch does not see the order paid; such a run sends `retries + 1` updates |
| Payments.PaymentPage | src/pages/orders/PaymentSuccess.tsx:9-18 | with an absent or empty `id` parameter the page stays on "validating" and sends nothing; at most four updates; an order already paid needs none |
| Payments.OnReturn | src/hooks/useYabetooReturn.ts:13-52 | once processed nothing happens; a `payment_status` or `order_id` marks the return processed; cancelled or failed clean the URL to the path; success navigates to /payment-success replacing history |
| Payments.ReturnHandledOnce | src/hooks/useYabetooReturn.ts:15-28 | after one handled return, every later render does nothing |
| Transactions.ParseTxType | src/services/transactionService.ts:36-47 | a type text is read back as the type of that name, and is "other" iff it is none of the four known types |
| Transactions.PurchaseTransaction | src/services/transactionService.ts:59-94 | a purchase is a debit of the amount for the buyer, described as "Achat de Nx name" |
| Transactions.SaleTransaction | src/services/transactionService.ts:96-133 | a sale is a credit of the net amount for the seller; the description carries the commission note exactly when a non-zero commission is given |
| Transactions.CommissionTransaction | src/services/transactionService.ts:135-167 | a commission is a credit for the affiliate carrying the commission rate |
| Transactions.WithdrawalTransaction | src/services/transactionService.ts:169-201 | a withdrawal is a pending debit carrying its fee |
| Transactions.CreateWithdrawal | src/services/transactionService.ts:232-250 | refused with "Solde insuffisant" exactly when the wallet (missing = 0) holds less than the amount; otherwise a free withdrawal whose recorded balance is what remains, never negative |
| Transactions.TransactionsByUser | src/services/transactionService.ts:34-57 | the user's rows, of the requested type unless the filter is 'all', all of them, each kept as often as it appears there, newest first |
| Invoices.TypeLabel | src/services/invoiceService.ts:332-341 | a known type gets its French label, any other type is shown verbatim |
| Invoices.TypeLabelInjective | src/services/invoiceService.ts:333-338 | distinct known types get distinct labels |
| Invoices.DocumentNumber | src/services/invoiceService.ts:30 | the document number is the first eight characters of the id, upper-cased |
| Invoices.DocumentTitle | src/services/invoiceService.ts:30-249 | each of the four types has a title ending in the document number; other types have none |
| Invoices.DocumentTitlesDistinct | src/services/invoiceService.ts:30-249 | two kinds of document never share a title |
| Invoices.PurchaseInvoiceOf | src/services/invoiceService.ts:15-89 | the invoice total is the absolute amount and the product defaults to "Produit" |
| Invoices.SaleReceiptOf | src/services/invoiceService.ts:94-165 | the receipt's commission is gross minus net, printed only when positive, and commission plus net is the gross total |
| Invoices.CommissionReceiptOf | src/services/invoiceService.ts:170-229 | the commission receipt shows the earned amount and the rate of the row |
| Invoices.WithdrawalReceiptOf | src/services/invoiceService.ts:234-296 | net received plus fee (missing = 0) is the requested absolute amount |
| Invoices.DocumentOf | src/pages/profile/TransactionHistory.tsx:29-61 | the download button produces the document of the row's type and nothing for other types |
| Invoices.SaleReceiptRecoversCommission | src/services/invoiceService.ts:138-145 | a sale recorded as gross minus commission with unit price gross / quantity prints back that commission, and no line without one |
| Invoices.WithdrawalReceiptOfCreated | src/services/invoiceService.ts:275-281 | a withdrawal created by the service is free, so its receipt reports the whole amount as received |
| Invoices.EscapeQuotes | src/services/invoiceService.ts:314 | doubling quotes leaves a quote-free cell unchanged |
| Invoices.QuoteCell | src/services/invoiceService.ts:314 | the corrected wrapper agrees with the as-written one on quote-free cells |
| Invoices.RowCells | src/services/invoiceService.ts:304-310 | a row gives five cells, the type label second and the description (or "") third |
| Invoices.RecordRoundTrip | src/services/invoiceService.ts:312-315 | a CSV reader reads an encoded line back as its cells |
| Invoices.RowsEncoded | src/services/invoiceService.ts:313-315 | every exported row is written as a faithful encoding of its cells |
| Invoices.ExportCsvRoundTrip | src/services/invoiceService.ts:301-315 | with quotes doubled, a CSV reader gets back exactly the header and every row's cells, whatever the descriptions hold |
| Invoices.ExportAsWrittenWithoutQuotes | src/services/invoiceService.ts:312-315 | as written the export reads back correctly as long as no cell holds a double quote |
| Invoices.ExportAsWrittenBreaks | src/services/invoiceService.ts:314 | as written a cell holding a quote (a product named `24" HD`) no longer reads back |
| History.FilterOptions | src/pages/profile/TransactionHistory.tsx:67-96 | 'all' comes first, then exactly one button per type the role owns (a missing profile gets only 'all'), with no value twice |
| History.TypeIcon | src/pages/profile/TransactionHistory.tsx:98-106 | the document icon is shown exactly for unknown types |
| History.TypeIconInjective | src/pages/profile/TransactionHistory.tsx:99-104 | the four known types have distinct icons |
| History.FormatAmount | src/pages/profile/TransactionHistory.tsx:112-135 | the magnitude is the absolute amount; purchases carry no sign; other types show a red "-" exactly when negative and a green "+" otherwise |
| History.DisplayedSignMatchesLedger | src/pages/profile/TransactionHistory.tsx:112-135 | for rows the ledger wrote, purchases are unsigned, credits show "+", non-zero withdrawals "-", and sign with magnitude give back the stored amount |
| History.ExportBaseName | src/pages/profile/TransactionHistory.tsx:64 | the export is named "historique-" followed by the role, or "user" without one |
| Affiliates.PairIndex | src/services/affiliateService.ts:53-55 | the upsert's conflict target: the first link of the (affiliate, product) pair, or none |
| Affiliates.RegisterPromotion | src/services/affiliateService.ts:34-60 | fails iff the product is missing or closed to affiliation (the not-affiliable message) or the upsert returns an error (that error, the table kept); otherwise the pair's link is active, the table gains a row only when the pair had none, and other links are kept |
| Affiliates.RegisterIdempotent | src/services/affiliateService.ts:46-55 | registering the same promotion again leaves the table as it is |
| Affiliates.SetStatus | src/services/affiliateService.ts:62-87 | the link with the id takes the status; every other link is unchanged |
| Affiliates.UpdateStatus | src/services/affiliateService.ts:62-87 | the update fails iff it returns an error, and then carries that error; otherwise every link with the id takes the status and the table keeps its length |
| Affiliates.PausePromotion | src/services/affiliateService.ts:62-69 | fails iff the update returns an error; otherwise the chosen link is paused |
| Affiliates.ResumePromotion | src/services/affiliateService.ts:71-78 | fails iff the update returns an error; otherwise the chosen link is active |
| Affiliates.ArchivePromotion | src/services/affiliateService.ts:80-87 | fails iff the update returns an error; otherwise the chosen link is archived |
| Affiliates.SetStatusFrame | src/services/affiliateService.ts:62-87 | a status change keeps ids, pairs and dates and the well-formed table; only the chosen link's status differs |
| Affiliates.PauseResume | src/services/affiliateService.ts:62-78 | pausing then resuming an active link, both succeeding, restores the table |
| Affiliates.AffiliateLinks | src/services/affiliateService.ts:19-32 | the affiliate's links, of the given status when one is given, all of them, each kept as often as it appears there, newest first |
| Affiliates.AffiliateUrl | src/pages/affiliate/AffiliateDashboard.tsx:39 | the shared link starts with the origin and ends with the affiliate's id |
| AffiliateDashboard.StripMarks | src/pages/affiliate/AffiliateDashboard.tsx:77 | removing U+0300..U+036F keeps exactly the other characters, in order |
| AffiliateDashboard.Normalize | src/pages/affiliate/AffiliateDashboard.tsx:76-78 | normalizeText leaves no combining mark and never lengthens the decomposed text |
| AffiliateDashboard.Missions | src/pages/affiliate/AffiliateDashboard.tsx:33 | the missions are exactly the catalogue's affiliate-enabled products, in catalogue order, each kept as often as it appears there |
| AffiliateDashboard.FilteredMissions | src/pages/affiliate/AffiliateDashboard.tsx:80-97 | a mission is listed iff it is affiliate-enabled and its normalised name or description contains the normalised term, each kept as often as it appears there in the catalogue, sorted by the chosen key and direction |
| AffiliateDashboard.EmptyTermKeepsAll | src/pages/affiliate/AffiliateDashboard.tsx:80-86 | an empty search keeps every mission |
| AffiliateDashboard.AccentInsensitive | src/pages/affiliate/AffiliateDashboard.tsx:76-86 | accents do not hide a mission: a name containing the term once both are decomposed and stripped of marks matches |
| AffiliateDashboard.FilteredLinks | src/pages/affiliate/AffiliateDashboard.tsx:99-105 | listed links are never archived, and every non-archived link whose normalised product name contains the term is listed; they keep their order, each kept as often as it appears there |
| AffiliateDashboard.SummaryMatchesStats | src/pages/affiliate/AffiliateDashboard.tsx:366-382 | the sales summary's count and earnings equal the headline sales count and total earned |
| AffiliateDashboard.SelectTab | src/pages/affiliate/AffiliateDashboard.tsx:107-141 | choosing a tab selects it and clears the search exactly when the tab changes |
| AffiliateDashboard.CopyLink | src/pages/affiliate/AffiliateDashboard.tsx:37-55 | without a user nothing happens; a failing clipboard copies nothing, keeps the links and shows the copy-error toast; otherwise the referral link is copied and the promotion registered, with the success toast and the link present, or the registration's error (not-affiliable or the upsert's) as an error toast and the links unchanged |
| AffiliateDashboard.HandleArchive | src/pages/affiliate/AffiliateDashboard.tsx:69-74 | without confirmation nothing changes and nothing is shown; a failed update keeps the links with the archive-error toast; otherwise the link is archived with the info toast |
| AffiliateDashboard.HandlePause | src/pages/affiliate/AffiliateDashboard.tsx:57-61 | a failed update keeps the links with the pause-error toast; otherwise the link is paused with the info toast |
| AffiliateDashboard.HandleResume | src/pages/affiliate/AffiliateDashboard.tsx:63-67 | a failed update keeps the links with the resume-error toast; otherwise the link is active with the success toast |
| AffiliateDashboard.PauseThenResume | src/pages/affiliate/AffiliateDashboard.tsx:57-67 | pausing then resuming an active link from the dashboard restores the table, and so does a failed pause |
| AffiliateDashboard.ArchivedLinkHidden | src/pages/affiliate/AffiliateDashboard.tsx:69-101 | an archived link disappears from the list |
| AffiliateStats.NewEntry | src/hooks/useAffiliateStats.ts:48-57 | a product's first row creates an entry with no sale and nothing earned |
| AffiliateStats.Merge | src/hooks/useAffiliateStats.ts:45-62 | after one iteration the row's product has an entry |
| AffiliateStats.MergeStep | src/hooks/useAffiliateStats.ts:45-62 | one iteration keeps products unique, adds one sale and the row's commission to its product only, keeps the first row's name, image, price and date, and adds one sale and that commission to the totals |
| AffiliateStats.FoldFacts | src/hooks/useAffiliateStats.ts:45-62 | the whole forEach counts each product's rows and commission into its entry and the totals are the row count and the whole commission |
| AffiliateStats.GroupSalesFacts | src/hooks/useAffiliateStats.ts:42-62 | one entry per product sold, counting exactly its rows and commission, dated by its first row; the totals are the number of rows and the total commission |
| AffiliateStats.LastSaleIsLatest | src/hooks/useAffiliateStats.ts:34-56 | with rows newest first, an entry's date is its product's latest sale |
| AffiliateStats.SalesByProduct | src/hooks/useAffiliateStats.ts:64 | the entries are reordered by total earned, highest first |
| AffiliateStats.SalesByProductFacts | src/hooks/useAffiliateStats.ts:42-64 | the sorted list keeps one entry per product sold with its exact counts, and its totals |
| AffiliateStats.SaleRowOf | src/hooks/useAffiliateStats.ts:29-34 | a sales row carries the order's product and commission |
| AffiliateStats.SaleRowsCommission | src/hooks/useAffiliateStats.ts:29-61 | the rows' commissions add up to the orders' commissions |
| AffiliateStats.AffiliateStats | src/hooks/useAffiliateStats.ts:7-73 | nothing without a user; a failing query is thrown; otherwise total earned and the sales count come from the delivered orders and the pending figures from the paid and shipped ones |
| AffiliateStats.SummaryMatchesTotals | src/hooks/useAffiliateStats.ts:38-71 | the per-product counts add up to the sales count and the per-product earnings to the total earned |
| Catalogue.ToggleCategory | src/pages/home/Home.tsx:49-55 | after a toggle the category is selected iff it was not before; every other category keeps its state |
| Catalogue.ToggleTwice | src/pages/home/Home.tsx:49-55 | toggling twice restores the selection as a set, and exactly when the category was not selected |
| Catalogue.FilterIf | src/pages/home/Home.tsx:62-109 | a filter applied only when its criterion is on keeps exactly the products passing it, in their order, each kept as often as it appears there |
| Catalogue.FilterProducts | src/pages/home/Home.tsx:62-109 | a product is kept iff it passes the search, the selected categories and every active badge; the kept products stay in their loaded order, each kept as often as it appears there |
| Catalogue.ApplySteps | src/pages/home/Home.tsx:62-109 | the `if (on) results = results.filter(...)` steps applied in turn keep the products passing every step that is on, in their order, each kept as often as it appears there |
| Catalogue.BadgeStepsMeaning | src/pages/home/Home.tsx:82-109 | a product passes the five badge steps iff it passes every active badge |
| Catalogue.BadgeStepsKeep | src/pages/home/Home.tsx:82-109 | the five badge filters, applied in turn, keep the products passing every active badge, in their order, each kept as often as it appears there |
| Catalogue.CatalogueStepsMeaning | src/pages/home/Home.tsx:62-109 | a product passes the search step, the category step and the badge steps iff it is to be shown |
| Catalogue.StepsOff | src/pages/home/Home.tsx:62-109 | steps that are all off leave the list as it is |
| Catalogue.NoStepOn | src/pages/home/Home.tsx:62-109 | with a blank query, no category and no badge the filters keep the list as it is |
| Catalogue.SortProducts | src/pages/home/Home.tsx:111-127 | the sort is a permutation: relevance keeps the order, the price and date sorts order by price ascending or descending and newest first |
| Catalogue.Catalogue | src/pages/home/Home.tsx:62-131 | the shown products are exactly those passing every active criterion, each shown as often as it was loaded, in the chosen order; under relevance that order is the loaded one |
| Catalogue.HasActiveFilters | src/pages/home/Home.tsx:139 | a filter is active iff the query is non-empty, a category is selected or a badge is on |
| Catalogue.InactiveFiltersShowAll | src/pages/home/Home.tsx:62-139 | with no active filter under relevance every product is shown in the loaded order |
| Catalogue.CatalogueAsWritten | src/pages/home/Home.tsx:62-131 | as written the list shown is the catalogue, but with no filter on the sort reorders the `products` state in place (a permutation of it) |
| Catalogue.RelevanceAfterSortAsWritten | src/pages/home/Home.tsx:114-129 | as written, sorting by price and then choosing relevance shows the price order instead of the loaded order |
| Catalogue.RelevanceKeepsLoadedOrder | src/pages/home/Home.tsx:128-129 | with the list copied before sorting, relevance shows the loaded order whatever was chosen before |
| Catalogue.DiscountPercent | src/components/products/ProductCard.tsx:18-20 | the rounded discount lies in 0..100 for a non-negative price, and is at least 1 iff the discount is at least half a percent |
| Catalogue.CardDiscount | src/components/products/ProductCard.tsx:18-20 | 0 unless the original price is set and above the price; infinite for an original of 0; otherwise 0..100 for a non-negative price |
| Catalogue.PromoBadgeShown | src/components/products/ProductCard.tsx:37-54 | the promo badge shows iff the rounded discount is positive, which needs the struck-through price |
| Catalogue.OptimizedImage | src/components/products/ProductCard.tsx:23-25 | a storage image gets the resize query appended; any other is unchanged |
| Catalogue.CardImage | src/components/products/ProductCard.tsx:31 | the placeholder once loading failed, the (optimised) image otherwise |
| ProductPage.ApplyMoq | src/pages/products/ProductDetail.tsx:90-94 | a quantity below the MOQ is raised to it; any other is kept |
| ProductPage.Minus | src/pages/products/ProductDetail.tsx:535-536 | "−" lowers by one unless disabled and never goes below the MOQ |
| ProductPage.Plus | src/pages/products/ProductDetail.tsx:571-575 | "+" adds one exactly below the tracked stock (untracked stock is unlimited) and never passes it |
| ProductPage.TypedQuantity | src/pages/products/ProductDetail.tsx:545-549 | a typed quantity (unparsable or 0 read as the MOQ) is raised to the MOQ and capped by a positive stock |
| ProductPage.TypedInRange | src/pages/products/ProductDetail.tsx:545-549 | a number between the MOQ and the stock is taken as typed |
| ProductPage.BlurAsWritten | src/pages/products/ProductDetail.tsx:550-558 | as written both tests read the old quantity and the second write wins: above a positive stock gives the stock, below the MOQ the MOQ |
| ProductPage.BlurLiftsAboveStockAsWritten | src/pages/products/ProductDetail.tsx:545-558 | with the MOQ above a positive stock, typing clamps to the stock and leaving the field as written lifts the quantity above it |
| ProductPage.Blur | src/pages/products/ProductDetail.tsx:550-558 | corrected: leaving the field never ends above a positive stock, and at least at the MOQ otherwise |
| ProductPage.BlurMatchesTyping | src/pages/products/ProductDetail.tsx:545-558 | leaving the field on a positive number keeps what typing that number keeps |
| ProductPage.BlurAsWrittenAgrees | src/pages/products/ProductDetail.tsx:550-558 | the as-written and corrected blur differ only when the MOQ exceeds a positive stock |
| ProductPage.ButtonsKeepQuantityOk | src/pages/products/ProductDetail.tsx:535-575 | both buttons keep a valid quantity valid |
| ProductPage.Swipe | src/pages/products/ProductDetail.tsx:108-120 | a swipe moves by at most one image, stays in range, goes forward only on a left swipe over 50 pixels and back only on a right one |
| ProductPage.SwipesBackToFirst | src/pages/products/ProductDetail.tsx:108-120 | a right swipe of 100 pixels shows the previous image, or stays on the first |
| ProductPage.OpenProduct | src/pages/products/ProductDetail.tsx:82-88 | opening a product shows the heart iff its id is among the stored favourites |
| ProductPage.ToggleFavorite | src/pages/products/ProductDetail.tsx:155-166 | without an id nothing happens; a favourite is removed everywhere, another is appended, and the heart flips; other ids keep their state |
| ProductPage.ToggleKeepsSync | src/pages/products/ProductDetail.tsx:155-166 | the heart keeps agreeing with the stored list |
| ProductPage.HandleShare | src/pages/products/ProductDetail.tsx:122-153 | an affiliate shares the referral link and registers the promotion, whose refusal or upsert error leaves the links as they were; anyone else shares the page URL |
| ProductPage.AuthRedirectEscapesPath | src/pages/products/ProductDetail.tsx:204-206 | the login redirect carries the product path with its slashes escaped |
| ProductPage.BuyNow | src/pages/products/ProductDetail.tsx:199-223 | checkout opens iff there is a product, no payment starting, a user, and any tracked stock is non-zero and covers the quantity; a guest goes to the login page; a stock of 0 gives the out-of-stock alert |
| ProductPage.CheckoutOrder | src/pages/products/ProductDetail.tsx:225-245 | the order sent is for price × quantity by the buyer to the product's seller, with the session's referral id when truthy and the form's phone and location |
| ProductPage.CheckoutPassesStockCheck | src/pages/products/ProductDetail.tsx:199-245 | an order sent after checkout opened passes createOrder's stock check, so it fails only when the insert does |
| ProductPage.PageDiscount | src/pages/products/ProductDetail.tsx:354-359 | the discount shows iff the original price is set and above the price, and lies in 0..100 for a non-negative price |
| Reviews.Ceil | src/components/reviews/StarRating.tsx:28 | `Math.ceil(x)` is the least integer not below x |
| Reviews.HighlightedIsCeiling | src/components/reviews/StarRating.tsx:26-28 | a star is highlighted (filled or half) exactly when its number is at most `ceil(value)` |
| Reviews.StarsShowCeiling | src/components/reviews/StarRating.tsx:26-28 | the number of highlighted stars is `ceil(value)` kept within 0 and the row length |
| Reviews.HighlightedStarsInRange | src/components/reviews/StarRating.tsx:26-28 | for a value from 0 to 5 exactly `ceil(value)` stars are highlighted |
| Reviews.Click | src/components/reviews/StarRating.tsx:16-35 | a click reports the star's number exactly when the widget is interactive (not read-only, with a handler) |
| Reviews.BuyerInitial | src/components/reviews/ReviewCard.tsx:11 | the avatar is one character: the upper-cased first letter of the name, or "A" |
| Reviews.BuyerLabel | src/components/reviews/ReviewCard.tsx:12 | the buyer's name, or "Acheteur"; never empty |
| Reviews.NextIndex | src/components/reviews/ReviewCarousel.tsx:18-20 | next goes one review forward and wraps from the last to the first |
| Reviews.PrevIndex | src/components/reviews/ReviewCarousel.tsx:22-24 | previous goes one review back and wraps from the first to the last |
| Reviews.PrevUndoesNext | src/components/reviews/ReviewCarousel.tsx:18-24 | forward then back, or back then forward, returns to the same review |
| Reviews.StepAsWritten | src/components/reviews/ReviewCarousel.tsx:26-44 | as written, one touch event keeps the index in range |
| Reviews.SwipeDirection | src/components/reviews/ReviewCarousel.tsx:34-44 | a move of more than 75 pixels left shows the next review, more than 75 right the previous one, anything in between nothing |
| Reviews.TapSwipesAsWritten | src/components/reviews/ReviewCarousel.tsx:14-44 | as written a tap without a move on a fresh carousel measures against the initial 0 and swipes |
| Reviews.Step | src/components/reviews/ReviewCarousel.tsx:26-44 | corrected: a touch start resets the end position, so the index stays in range and the start does not move it |
| Reviews.TapKeepsIndex | src/components/reviews/ReviewCarousel.tsx:26-44 | corrected, a tap never changes the review shown while a real swipe moves exactly as written |
| Reviews.CarouselLayout | src/components/reviews/ReviewCarousel.tsx:46-91 | the empty state iff there is no review; dots iff more than one; "Voir tous" iff more reviews exist than are shown and a callback is given |
| Reviews.SortReviews | src/components/reviews/ReviewsModal.tsx:64-83 | a sorted copy (a permutation): highest or lowest rating of the kind first, or newest first |
| Reviews.Offset | src/components/reviews/ReviewsModal.tsx:33 | page `n` starts at row `(n - 1) * 10` |
| Reviews.LoadAsWritten | src/components/reviews/ReviewsModal.tsx:31-62 | as written `hasMore` counts the list as it stood before the load, even when a reset replaces it |
| Reviews.Load | src/components/reviews/ReviewsModal.tsx:31-62 | corrected: a reset replaces the list with the sorted page, a later load appends it, and `hasMore` holds iff fewer reviews are shown than exist |
| Reviews.ChangeSort | src/components/reviews/ReviewsModal.tsx:25-92 | a sort change reloads page 1 with the new sort |
| Reviews.LoadMore | src/components/reviews/ReviewsModal.tsx:85-87 | "load more" loads the next page |
| Reviews.SortChangeHidesMoreAsWritten | src/components/reviews/ReviewsModal.tsx:59 | as written, with twenty reviews shown and the sort changed, ten of twenty-five are shown and "load more" disappears |
| Reviews.Session | src/components/reviews/ReviewsModal.tsx:25-87 | opening then `k` presses of "load more" leave page `k + 1` |
| Reviews.SessionShowsPages | src/components/reviews/ReviewsModal.tsx:31-87 | corrected, the first `k + 1` pages are shown and "load more" stays exactly while some review is not shown |
| Reviews.Footer | src/components/reviews/ReviewsModal.tsx:126-150 | the load-more button, the all-seen note or the empty state, each exactly in its case |
| Reviews.SliceTo | src/components/reviews/ReviewModal.tsx:41 | `slice(0, end)` is a prefix, of length `end` capped by the length for a non-negative end |
| Reviews.AddPhotos | src/components/reviews/ReviewModal.tsx:38-53 | the chosen files are appended only up to three photos in all |
| Reviews.RemovePhoto | src/components/reviews/ReviewModal.tsx:55-58 | every file but the chosen one is kept; an index past the end changes nothing |
| Reviews.RemoveUndoesAdd | src/components/reviews/ReviewModal.tsx:38-58 | removing the photo just added restores the form |
| Reviews.PositiveOrNone | src/components/reviews/ReviewModal.tsx:85-86 | a rating is sent only when positive |
| Reviews.Submit | src/components/reviews/ReviewModal.tsx:60-103 | refused with "Veuillez noter…" exactly when neither rating is set; otherwise the payload carries the positive ratings, the trimmed comments (empty dropped), the uploaded photos iff some were chosen, and a failure yields a non-empty error |
| Reviews.SubmitNeedsARating | src/components/reviews/ReviewModal.tsx:60-65 | the button is disabled exactly when a press would be refused, and a payload always carries a rating |
| Reviews.SubmittedReviewShows | src/components/reviews/ReviewCard.tsx:20-28 | a stored review shows product stars iff the product was rated, seller stars iff the seller was, a comment only with text, and photos only on the product side when some were chosen |
| Reviews.CardAgreesWithSort | src/components/reviews/ReviewCard.tsx:20-22 | a card shows stars exactly when the list's sort key is positive, and the stars show that key |
| Chat.UnreadIds | src/services/chatService.ts:93-99 | the unread query's id column only names conversations of the viewer's list |
| Chat.Tally | src/services/chatService.ts:102-104 | the `reduce` builds a map whose keys are the ids it was given |
| Chat.TallyCounts | src/services/chatService.ts:102-110 | the tally of an id is the number of times the id occurs in the column (0 for an absent one) |
| Chat.UnreadIdsCount | src/services/chatService.ts:93-99 | for a listed conversation the id column holds exactly its unread messages sent by the other party |
| Chat.Conversations | src/services/chatService.ts:66-113 | the list is the conversations the viewer takes part in and has not hidden, in the database's order, each enriched only in its unread count; a failed conversation query yields none |
| Chat.ListedConversation | src/services/chatService.ts:76-111 | each listed conversation involves the viewer, is visible to them, and counts its unread messages from others (0 when the unread query failed) |
| Chat.UnreadTotal | src/services/chatService.ts:257-275 | the global unread count is 0 when the query fails and never exceeds the number of messages |
| Chat.ReadingLowersTotal | src/services/chatService.ts:257-298 | marking a conversation read lowers the global unread count by exactly that conversation's unread messages |
| Chat.MarkAsRead | src/services/chatService.ts:289-298 | exactly the unread messages of the conversation sent by someone else become read; nothing else changes |
| Chat.MarkAsReadClears | src/services/chatService.ts:289-298 | afterwards the conversation has no unread message, other conversations keep their counts, and a second call changes nothing |
| Chat.TripleIndex | src/services/chatService.ts:229-236 | the `maybeSingle` lookup finds the first conversation for the (buyer, seller, product) triple, or none |
| Chat.CreateConversation | src/services/chatService.ts:229-244 | an existing conversation for the triple is returned unchanged; otherwise one is inserted (or the insert error reported), keeping one conversation per triple |
| Chat.CreateConversationIdempotent | src/services/chatService.ts:229-244 | starting the same negotiation twice lands in the same conversation and inserts nothing the second time |
| Chat.SetHidden | src/services/chatService.ts:301-322 | hide and unhide set only the caller's own flag on the conversation with that id |
| Chat.HideFromOwnSide | src/services/chatService.ts:301-322 | hiding removes the conversation from the caller's list only, unhiding brings it back, and the other party's view is unaffected |
| Chat.ListName | src/pages/chat/MessagesList.tsx:61-67 | a buyer sees the store name, else the seller's name, else "Boutique"; a seller sees the buyer's name, else "Client"; never empty |
| Chat.ListPreview | src/pages/chat/MessagesList.tsx:75-95 | the preview is the photo or video icon when the viewer's last message carried media, else its text, else nothing |
| Chat.ListTime | src/pages/chat/MessagesList.tsx:83-85 | the time shown is the viewer's own preview time, falling back to the conversation's |
| Chat.UnreadBadge | src/pages/chat/MessagesList.tsx:62-119 | the badge appears exactly when the unread count is positive and shows the count capped at "9+" |
| Chat.OpenConversation | src/pages/chat/MessagesList.tsx:41-45 | opening marks the conversation read, then navigates to `/chat/<id>` |
| Chat.RoomName | src/pages/chat/ChatRoom.tsx:267-273 | the room header's name is never empty |
| Chat.AvatarInitial | src/pages/chat/ChatRoom.tsx:277 | the avatar letter is the upper-cased first letter of the name |
| Chat.NamesAgree | src/pages/chat/ChatRoom.tsx:267-273 | the room and the list, deciding the viewer's side from different ids, show the same name whenever the viewer is exactly one party |
| Chat.FetchMessages | src/hooks/useMessages.ts:10-15 | without a conversation id the message list is empty, otherwise it holds that conversation's messages |
| Chat.Incoming | src/hooks/useMessages.ts:28-37 | a realtime message starts an empty cache, leaves a cache that already has its id alone, or joins the cache with the result ordered by creation time |
| Chat.IncomingIdempotent | src/hooks/useMessages.ts:31-34 | receiving the same message twice has the effect of receiving it once |
| Chat.IncomingNewestAppends | src/hooks/useMessages.ts:33-36 | a message newer than all cached ones is simply appended |
| Chat.Optimistic | src/hooks/useChatActions.ts:34-45 | the placeholder carries id `temp-…` and exactly the sender, content, media, sticker and order of the request |
| Chat.Send | src/hooks/useChatActions.ts:10-56 | the send fails exactly without a conversation id or on a server error; the placeholder is shown only when messages were cached; a failure restores the earlier cache |
| Chat.SendRollsBack | src/hooks/useChatActions.ts:30-56 | after a failure the cache is as before; after a success it keeps the cached messages followed by exactly one new one |
| Chat.MarkConversationRead | src/hooks/useChatActions.ts:64-72 | without a conversation id the hook's markAsRead changes nothing |
| Chat.ComposeSend | src/pages/chat/ChatRoom.tsx:82-130 | nothing is sent for an empty text with no file and no override, or without a conversation or user; the content is the trimmed text or a non-empty override, and never empty; a failed upload stops the send; media is attached exactly when a file was chosen |
| Chat.SentTextTrimsToTyped | src/pages/chat/ChatRoom.tsx:84-90 | typed text is sent trimmed, unchanged up to trimming |
| Chat.OfferAmount | src/pages/chat/ChatRoom.tsx:175 | the amount is the unit price times the quantity, and missing when either does not parse |
| Chat.OfferOf | src/pages/chat/ChatRoom.tsx:172-238 | the offer expires `validity` days after now; editing updates the edited order, otherwise a new order is made for the conversation's buyer, seller, product and referrer |
| Chat.EditForm | src/pages/chat/ChatRoom.tsx:446-456 | the edit form always resets the validity to seven days |
| Chat.EditRoundTrip | src/pages/chat/ChatRoom.tsx:446-456 | saving the pre-filled edit form unchanged rewrites the same amount, quantity (1 when missing), notes and shipping delay |
| Chat.UnitTimesQuantity | src/pages/chat/ChatRoom.tsx:175 | splitting an amount into a unit price and multiplying back is exact |
| Chat.CountdownAt | src/pages/chat/ChatRoom.tsx:354-370 | past the deadline the offer reads expired; otherwise whole days left, else whole hours left, else under an hour, each within its bounds |
| Chat.DealButtons | src/pages/chat/ChatRoom.tsx:354-456 | a deal card never shows both the pay and edit buttons, pay is never offered for an expired offer, and neither appears once the order is no longer pending |
| Notifications.UnreadShown | src/components/common/NotificationBell.tsx:109 | the unread notifications shown never outnumber the list |
| Notifications.Receive | src/components/common/NotificationBell.tsx:29-31 | a realtime notification goes first, the list is cut to twenty, and the counter rises by one |
| Notifications.MarkRead | src/components/common/NotificationBell.tsx:63 | exactly the notifications with the clicked id become read; the rest are kept |
| Notifications.Click | src/components/common/NotificationBell.tsx:59-70 | an unread notification is marked read and the counter drops by one, never below zero; a read one changes neither; the dropdown closes and the link, if any, is followed |
| Notifications.MarkAllRead | src/components/common/NotificationBell.tsx:72-77 | the counter becomes 0 and every notification is read |
| Notifications.Badge | src/components/common/NotificationBell.tsx:85-87 | the badge is hidden at 0 and otherwise shows the count, capped at "9+" |
| Notifications.MarkReadLowers | src/components/common/NotificationBell.tsx:63 | marking one notification read never adds an unread entry, and removes one when it was shown unread |
| Notifications.ReceiveKeepsCount | src/components/common/NotificationBell.tsx:29-31 | a realtime insert keeps the counter at or above the unread notifications shown |
| Notifications.ClickKeepsCount | src/components/common/NotificationBell.tsx:59-64 | a click keeps the counter at or above the unread notifications shown |
| Notifications.MarkAllReadClears | src/components/common/NotificationBell.tsx:72-77 | after "Tout marquer lu" nothing shown is unread and the counter still covers the list |
| Notifications.ClickTwice | src/components/common/NotificationBell.tsx:59-70 | clicking a notification twice has the effect of clicking it once |
| Kyc.Written | src/services/kycService.ts:59-76 | a field sent as `undefined` is left out of the update, so the row keeps its earlier value |
| Kyc.LatestRequest | src/services/kycService.ts:22-32 | the seller's request with the latest creation time, and none exactly when the seller has no request |
| Kyc.SubmitRequest | src/services/kycService.ts:37-54 | a new pending, unreviewed row carrying the seller's documents, number and notes, or the insert error |
| Kyc.IndexOf | src/services/kycService.ts:74 | `.eq('id', …)` finds the first row with the id, or none |
| Kyc.UpdateAt | src/services/kycService.ts:74-163 | an update by id changes that row and keeps every other |
| Kyc.ResubmitRequest | src/services/kycService.ts:59-79 | the row goes back to pending with its review cleared and the new documents; left-out fields keep their value; a missing row or a write error is an error |
| Kyc.Review | src/services/kycService.ts:128-163 | a review sets the status, the note, the reviewing admin and the time on the row with the id; without such a row nothing changes |
| Kyc.Approve | src/services/kycService.ts:128-149 | the request is approved and only then the seller's profile marked verified; the first write error stops and is returned |
| Kyc.Reject | src/services/kycService.ts:154-166 | the request is rejected with the reason as its note, and the profile is untouched |
| Kyc.AllRequests | src/services/kycService.ts:111-125 | the requests with the asked status (all of them without one), each kept as often as it appears there, newest first |
| Kyc.TransitionsKeepConsistent | src/services/kycService.ts:37-166 | every transition keeps each request consistent: a pending one unreviewed, a reviewed one approved or rejected |
| Kyc.RejectThenResubmit | src/services/kycService.ts:59-166 | a rejected request sent again is pending and unreviewed, keeping its id, seller and creation time |
| Kyc.PhotoError | src/components/kyc/KYCRequestModal.tsx:26-41 | a photo is refused exactly when it is over 5 MB or not an image, the size being checked first |
| Kyc.SelectPhoto | src/components/kyc/KYCRequestModal.tsx:26-55 | an accepted photo fills its slot and clears the error; a refused one only sets the error |
| Kyc.FormError | src/components/kyc/KYCRequestModal.tsx:57-71 | the form passes exactly when both photos are there (or an earlier request exists) and the number is not blank, the card being checked first |
| Kyc.NotesOf | src/components/kyc/KYCRequestModal.tsx:108-116 | the notes are sent trimmed, and left out when blank |
| Kyc.DraftOf | src/components/kyc/KYCRequestModal.tsx:75-117 | a chosen photo's upload replaces the earlier URL; the number is trimmed |
| Kyc.WriteRequest | src/components/kyc/KYCRequestModal.tsx:101-118 | a rejected earlier request is rewritten in place, otherwise a new request is added for the seller; either way it is pending with the trimmed number |
| Kyc.SubmitForm | src/components/kyc/KYCRequestModal.tsx:57-133 | the modal closes exactly when the checks, the uploads of the chosen photos and the write all succeed; otherwise nothing is written and the first error shows |
| Kyc.KycCardOf | src/pages/seller/SellerDashboard.tsx:219-283 | a verified seller sees the verified card; otherwise no request offers the button, a pending one waits, a rejected one shows its reason; an approved request of an unverified profile shows nothing |
| Kyc.FormRequest | src/pages/seller/SellerDashboard.tsx:291 | the modal is given the seller's request only when it was rejected |
| Kyc.DashboardSubmit | src/pages/seller/SellerDashboard.tsx:286-296 | a successful submit from the dashboard leaves a pending request with the trimmed number, rewriting the rejected one the card showed and otherwise adding one |
| Forms.ImageFileError | src/pages/seller/EditStore.tsx:57-109 | an upload goes ahead exactly for an image of at most 5 MB; the type is checked before the size |
| Forms.SaveStore | src/pages/seller/EditStore.tsx:149-180 | without a user nothing happens; an invalid number is refused; otherwise every empty field is stored as null and the stored slug is kept, else a well-formed slug is made from the store name |
| Forms.StoreSaved | src/pages/seller/EditStore.tsx:182-189 | a failed save alerts the error; a successful one leads to the seller's public store page |
| Forms.PhoneUnique | src/pages/profile/AccountSettings.tsx:40-55 | an empty number is unique; a failed query counts as not unique; otherwise no other profile of the same role holds the number |
| Forms.SaveAccount | src/pages/profile/AccountSettings.tsx:85-115 | the format is checked before uniqueness; the row is written exactly when both pass, so a number taken by another account of the same role is never written; empty fields are stored as null |
| Forms.AccountUpdateOf | src/pages/profile/AccountSettings.tsx:106-112 | each empty field of the account form is stored as null |
| Forms.WithdrawalError | src/components/finance/WithdrawalRequestModal.tsx:23-40 | a request passes exactly for an amount from 5000 to the balance with a phone number; the checks come in the order invalid amount, balance, minimum, phone |
| Forms.SubmitWithdrawal | src/components/finance/WithdrawalRequestModal.tsx:23-64 | the request is sent exactly when the checks pass; the modal closes exactly when the service accepts it; a refused request shows "Erreur: …" |
| Forms.Checkout | src/components/orders/CheckoutModal.tsx:19-33 | the order is confirmed with the fields as typed exactly when the phone has at least 8 and the place at least 3 UTF-16 units, the phone being checked first |
| Forms.ChangePassword | src/pages/profile/components/ChangePasswordModal.tsx:24-72 | a password shorter than 6 or not confirmed is refused before any request; the update is asked only after the current password is accepted; only a full success clears the fields; a wrong current password reads "Mot de passe actuel incorrect" |
| Phone.ReadGroup | src/pages/seller/EditStore.tsx:134 | a group read is a well-formed separator and digits, and the text read plus the rest is the input |
| Phone.ReadPrefix | src/pages/seller/EditStore.tsx:134 | the optional `+242` prefix read plus the rest is the input |
| Phone.ReadGroups | src/pages/seller/EditStore.tsx:134 | the three digit groups read make up the whole remaining text |
| Phone.Parse | src/pages/seller/EditStore.tsx:129-137 | a recognised number is made of well-formed pieces that render back to the input |
| Phone.ParseRender | src/pages/seller/EditStore.tsx:134 | parsing the rendering of well-formed pieces gives the pieces back |
| Phone.RenderEnds | src/pages/seller/EditStore.tsx:134-136 | a rendered number starts with `+` or `0` and ends with a digit, so trimming leaves it alone |
| Phone.ValidPhoneComplete | src/pages/seller/EditStore.tsx:129-137 | every number written from well-formed pieces is accepted |
| Phone.AdvertisedFormatsWellFormed | src/pages/seller/EditStore.tsx:132-143 | the formats the hint advertises, "+242 06 123 1244" and "06-961-12-33", are well formed |
| Phone.PhoneError | src/pages/seller/EditStore.tsx:139-147 | the error under the field shows exactly when the value is invalid, the empty value being valid |
| Phone.ReadGroupRendered | src/pages/seller/EditStore.tsx:134 | a well-formed group followed by anything is read back as that group |
| Phone.ReadGroupsRendered | src/pages/seller/EditStore.tsx:134 | three well-formed groups are read back as themselves |
| Text.Trim | src/pages/chat/ChatRoom.tsx:84 | `trim()` leaves an infix of the text with no white space at either end, and empty exactly for a blank text |
| Text.TrimUnchanged | src/pages/chat/ChatRoom.tsx:84 | a text with no white space at either end is its own trim |
| Text.TrimNotBlank | src/components/kyc/KYCRequestModal.tsx:67 | a non-empty trim is not blank |
| Text.TrimIdempotent | src/components/kyc/KYCRequestModal.tsx:107-115 | trimming twice is trimming once |
| Text.Utf16Length | src/components/orders/CheckoutModal.tsx:23-27 | `length` counts UTF-16 code units: at least the characters, at most twice as many, and 0 only for the empty text |
| Text.Utf16LengthAppend | src/components/orders/CheckoutModal.tsx:23 | the length of a concatenation is the sum of the lengths |
| Text.Utf16LengthBmp | src/components/orders/CheckoutModal.tsx:23 | the length equals the number of characters exactly for text inside the Basic Multilingual Plane |
| Text.Lower | src/pages/affiliate/AffiliateDashboard.tsx:77 | `toLowerCase()` maps each character to its lower case, keeping the length |
| Text.LowerIdempotent | src/pages/affiliate/AffiliateDashboard.tsx:77 | lower-casing twice is lower-casing once, and lower-casing commutes with concatenation |
| Text.IncludesIff | src/pages/affiliate/AffiliateDashboard.tsx:85-104 | `includes` holds exactly when the text occurs at some position |
| Text.LowerKeepsIncludes | src/pages/affiliate/AffiliateDashboard.tsx:82-85 | lower-casing both sides keeps an occurrence |
| Text.IncludesEmpty | src/pages/affiliate/AffiliateDashboard.tsx:85 | every text includes the empty text |
| Text.Take | src/services/invoiceService.ts:30-46 | `substring(0, n)` is the first n characters, or the whole text when shorter |
| Text.NatToString | src/services/invoiceService.ts:59 | `String(n)` writes decimal digits without leading zeros |
| Text.NatToStringLength | src/services/invoiceService.ts:59 | a number with k digits is written with k characters |
| Text.NatToStringValue | src/services/invoiceService.ts:59 | reading back the digits gives the number |
| Text.ParseInt | src/pages/chat/ChatRoom.tsx:176-181 | `parseInt` of a blank text is NaN |
| Text.ParseIntUnsigned | src/pages/chat/ChatRoom.tsx:176 | a text starting with digits is read as their value, and with a minus in front as its negation |
| Text.ParseIntRoundTrip | src/pages/chat/ChatRoom.tsx:176 | `parseInt` reads back what `String(n)` writes, for every integer, ignoring what follows the number |
| Text.BadgeText | src/components/common/NotificationBell.tsx:86 | a badge shows the count up to 9 and "9+" above |
| Text.BadgeReadsCapped | src/pages/chat/MessagesList.tsx:117 | read back as a number, a badge says the count capped at 9 |
| Uri.Utf8 | src/pages/products/ProductDetail.tsx:175 | one to four bytes per character, one exactly for ASCII, which is written as itself |
| Uri.EncodeChar | src/pages/products/ProductDetail.tsx:175 | an unreserved character stays; any other becomes percent escapes |
| Uri.EncodeComponent | src/pages/products/ProductDetail.tsx:175-206 | `encodeURIComponent` never shortens a text |
| Uri.EncodeUnreserved | src/pages/products/ProductDetail.tsx:175 | text of unreserved characters is not changed |
| Uri.EncodeAsciiRoundTrip | src/pages/products/ProductDetail.tsx:175 | decoding the encoding of ASCII text gives the text back |
| Uri.EncodeConcat | src/pages/products/ProductDetail.tsx:175 | encoding works character by character |
| Uri.SlashEscaped | src/pages/products/ProductDetail.tsx:174-175 | a slash becomes `%2F`, so the return path stays one query value |
| Uri.SegmentEscaped | src/pages/products/ProductDetail.tsx:174-175 | a segment of unreserved characters between slashes keeps its characters between two `%2F` |
| Links.MatchAt | src/pages/chat/ChatRoom.tsx:281 | what the matcher finds at a position is a `[label](url)` span admitted by the lazy regular expression |
| Links.SpanIsMatch | src/pages/chat/ChatRoom.tsx:281 | every span the regular expression admits at a position is the one the matcher finds there |
| Links.NextLink | src/pages/chat/ChatRoom.tsx:281 | the next match lies at or after the position and is bracketed as a link |
| Links.NextLinkLeftmost | src/pages/chat/ChatRoom.tsx:281 | the next match is the leftmost one, and none is missed when there is none |
| Links.Matches | src/pages/chat/ChatRoom.tsx:281 | the matches `split` cuts on are ordered and do not overlap |
| Links.MatchesLeftmost | src/pages/chat/ChatRoom.tsx:281 | each match `split` uses is the leftmost one after the previous |
| Links.TokensAlternate | src/pages/chat/ChatRoom.tsx:281 | plain text and links alternate in the split |
| Links.LinkText | src/pages/chat/ChatRoom.tsx:281 | a link part's text is exactly the matched `[label](url)` |
| Links.TokensConcat | src/pages/chat/ChatRoom.tsx:281 | joining the parts of the split gives the message back |
| Links.NoNextNoLink | src/pages/chat/ChatRoom.tsx:281-284 | the matcher finds nothing exactly when no link starts anywhere in the text |
| Links.LinkPartMatch | src/pages/chat/ChatRoom.tsx:284-287 | `part.match` on a link part finds that part's own label and url exactly when the part is shown right |
| Links.TokensShown | src/pages/chat/ChatRoom.tsx:279-300 | every part is shown right: plain text contains no link, and each link shows its own label and url |
| Links.AnchorOf | src/pages/chat/ChatRoom.tsx:288-297 | the anchor points to the url with the label as its text, and opens a new tab, with `noopener`, exactly for urls starting with "http" |
| Slug.RemoveUnkept | src/pages/seller/EditStore.tsx:165 | only word characters, white space and dashes are kept, and no upper case is introduced |
| Slug.DropJoiners | src/pages/seller/EditStore.tsx:166 | the leading white space, underscores and dashes are removed, leaving a suffix |
| Slug.Collapse | src/pages/seller/EditStore.tsx:166 | a run of white space, underscores and dashes becomes one dash; empty text stays empty |
| Slug.CollapseNoDoubleDash | src/pages/seller/EditStore.tsx:166 | collapsing never leaves two dashes in a row |
| Slug.StripDashes | src/pages/seller/EditStore.tsx:167 | the result neither starts nor ends with a dash |
| Slug.SlugWellFormed | src/pages/seller/EditStore.tsx:162-167 | a generated slug is lower-case letters and digits joined by single dashes, whatever the store name |
| Slug.SlugKeepsAlnums | src/pages/seller/EditStore.tsx:162-167 | the slug keeps exactly the letters and digits of the lower-cased name, in order |
| Slug.SlugFixed | src/pages/seller/EditStore.tsx:162-167 | a well-formed slug is its own slug |
| Slug.SlugIdempotent | src/pages/seller/EditStore.tsx:162-167 | normalising twice is normalising once |
| Slug.WellFormedHasAlnum | src/pages/seller/EditStore.tsx:162-167 | a non-empty well-formed slug holds a letter or digit |
| Slug.SlugEmpty | src/pages/seller/EditStore.tsx:162-167 | the slug is empty exactly when the name has no letter or digit |
| Slug.StoreSlug | src/pages/seller/EditStore.tsx:162-178 | a non-empty stored slug is kept; otherwise the generated slug is written, and null exactly when the name has no letter or digit |
| Admin.ItemName | src/pages/admin/components/ModerationTab.tsx:133 | a product row is searched by its name; a profile by its full name, else its store name, else "" |
| Admin.FilteredData | src/pages/admin/components/ModerationTab.tsx:132-135 | exactly the rows whose name contains the search text, ignoring case, kept in order, each kept as often as it appears there |
| Admin.SearchKeepsMatches | src/pages/admin/components/ModerationTab.tsx:132-135 | a row containing the search text as typed is kept, and the empty search keeps every row |
| Admin.FilterStatus | src/pages/admin/components/ModerationTab.tsx:17-47 | "all" asks for no status, any other filter for its own status |
| Admin.KycViewLists | src/pages/admin/components/ModerationTab.tsx:44-48 | the identity view lists every request under "all" and, under a status, the requests with that status |
| Admin.SetWhere | src/pages/admin/components/ModerationTab.tsx:60-61 | a write by id changes the rows with that id and keeps the others |
| Admin.ToggleVerification | src/pages/admin/components/ModerationTab.tsx:57-63 | the seller badge becomes the opposite of the value shown; a failed write changes nothing |
| Admin.ToggleTwice | src/pages/admin/components/ModerationTab.tsx:57-63 | toggling the badge twice from the value shown gives back the profiles |
| Admin.ToggleKyc | src/pages/admin/components/ModerationTab.tsx:65-84 | nothing happens unless the admin confirms; then the KYC flag flips and an alert reports validation, revocation or the error |
| Admin.ApproveKyc | src/pages/admin/components/ModerationTab.tsx:92-109 | a cancelled prompt does nothing; otherwise the request is approved with the notes when not empty, and the outcome is alerted |
| Admin.RejectKyc | src/pages/admin/components/ModerationTab.tsx:111-130 | a missing or blank reason is refused; a reason is written trimmed |
| Admin.RejectionReasonStored | src/pages/admin/components/ModerationTab.tsx:111-130 | a rejection stores a reason that is neither blank nor padded and leaves the seller's verification alone |
| Admin.TabReviewsKeepConsistent | src/pages/admin/components/ModerationTab.tsx:92-130 | reviews from the tab keep every request's review fields in step with its status |
| Admin.LoadAsWritten | src/pages/admin/components/SettingsTab.tsx:28-52 | as written, the defaults stay unless there is exactly one row, and each stored value falls back to its default when falsy, so a stored 0 shows as the default |
| Admin.Load | src/pages/admin/components/SettingsTab.tsx:14-52 | with the defaults only for a missing row, the stored values are shown as they are |
| Admin.ParseInput | src/pages/admin/components/SettingsTab.tsx:144-213 | an input is read as the number typed, and as 0 when it is not a number |
| Admin.Example | src/pages/admin/components/SettingsTab.tsx:234-245 | the worked example splits 10 000 FCFA into the aggregator's fee, the platform's commission and the seller's part, which is negative exactly when the two rates exceed 100% |
| Admin.Save | src/pages/admin/components/SettingsTab.tsx:54-94 | the one existing row is updated; with none or several a row is inserted; an error changes nothing |
| Admin.SaveThenLoad | src/pages/admin/components/SettingsTab.tsx:28-94 | with at most one row, what is saved is what the next load shows |
| Admin.ZeroCommissionReloadsAsFive | src/pages/admin/components/SettingsTab.tsx:41-144 | as written, a commission of 0 saved from the tab reloads as 5 |
| Store.Followed | src/services/storeService.ts:103 | the follow list is the stored JSON, empty when nothing is stored, and an error when the entry does not parse |
| Store.Follow | src/services/storeService.ts:99-118 | the id is appended unless already followed; the call fails only when the entry does not parse, and then nothing changes |
| Store.Unfollow | src/services/storeService.ts:123-136 | every occurrence of the id is removed and nothing else; a broken entry fails and is left alone |
| Store.FollowUnfollowState | src/services/storeService.ts:99-151 | after a follow the store is followed, after an unfollow it is not, and every other store keeps its state |
| Store.FollowIdempotent | src/services/storeService.ts:99-118 | following twice is following once |
| Store.FollowThenUnfollow | src/services/storeService.ts:99-136 | unfollowing a store just followed gives back the stored list |
| Store.FollowedStores | src/services/storeService.ts:156-184 | no query for an empty list; otherwise exactly the seller profiles whose id is followed, in their order and each kept as often as it appears there, or the error |
| Store.Single | src/services/storeService.ts:32-54 | `.single()` yields the row when exactly one matches, and an error for none or several |
| Store.StoreById | src/services/storeService.ts:24-41 | the store found is the one seller profile with that id |
| Store.StoreBySlug | src/services/storeService.ts:46-63 | the store found is the one seller profile with that slug |
| Store.StoreProducts | src/services/storeService.ts:68-94 | exactly the seller's products, each kept as often as it appears there, most recent first |
| Store.BestsellersListsAll | src/services/storeService.ts:76-84 | the "bestsellers" filter lists the same products as "all" |
| Store.StatsAsWritten | src/pages/store/StorePage.tsx:77-92 | as written, the turnover adds the commissions to the order amounts, which already include them |
| Store.Stats | src/pages/store/StorePage.tsx:77-92 | the turnover is what buyers paid: the sellers' shares plus the commissions |
| Store.SplitTurnover | src/pages/store/StorePage.tsx:85-90 | the order amounts are the sellers' shares plus the commissions |
| Store.TurnoverDoubleCountsAsWritten | src/pages/store/StorePage.tsx:85-90 | as written, one delivered order with a commission makes the turnover shown exceed what the buyers paid |
| Store.LoadStore | src/pages/store/StorePage.tsx:40-94 | as written: a missing store shows nothing else; otherwise the seller's products, each as often as the query returned it, the follow state for a signed-in visitor, and for orders data the revenue of the seller's delivered orders, their commissions, and a turnover adding the two; a failed products query, a signed-out visitor and absent orders data leave the products, the follow state and the figures the page held before |
| Store.LoadStoreAgainstCorrected | src/pages/store/StorePage.tsx:77-92 | the turnover shown exceeds the corrected one by the delivered orders' commissions |
| Store.RefilterKeepsEarlierLoad | src/pages/store/StorePage.tsx:35-62 | a change of filter loads again; if the products query then fails, the page keeps the products and figures of the earlier load, where a first load shows none |
| Store.RevenueOwnerOnly | src/pages/store/StorePage.tsx:325 | only the seller sees the figures, and they see them once the turnover is positive |
| Store.HandleFollow | src/pages/store/StorePage.tsx:97-110 | a signed-out visitor is asked to sign in; otherwise the state flips and the stored list agrees with it |
| Store.MemberSince | src/pages/store/StorePage.tsx:136-142 | the text splits at its first space into the French abbreviation of the 0-based month and the digits of the year |
| Store.MemberSinceInjective | src/pages/store/StorePage.tsx:136-142 | two stores show the same text only when they joined in the same month of the same year |
| Seller.UpdateCommission | src/pages/seller/SellerDashboard.tsx:96-107 | a rate is written exactly when it is a number from 0 to 100 |
| Seller.WrittenRateBoundsCommission | src/pages/seller/SellerDashboard.tsx:96-98 | a rate the dashboard writes never gives a commission above the order amount, nor a negative one |
| Seller.MyProducts | src/pages/seller/SellerDashboard.tsx:61-62 | the product list is exactly the user's own products, in their order, each kept as often as it appears there |
| Seller.DeliveredSales | src/pages/seller/SellerDashboard.tsx:66-70 | the rows read are exactly the seller's delivered orders, in their order, each kept as often as it appears there |
| Seller.Stats | src/pages/seller/SellerDashboard.tsx:79-91 | the totals of amounts and of commissions (missing as 0), the order count, and an activity of 100% exactly when one sale is delivered |
| Seller.RefreshStats | src/pages/seller/SellerDashboard.tsx:66-91 | without order data the figures are kept; otherwise the sales total is the revenue of the seller's delivered orders and activity is 100% exactly when one of them is delivered |
| Seller.DashboardMatchesOrdersList | src/pages/seller/SellerDashboard.tsx:66-83 | the dashboard's sales total is the delivered revenue the orders list shows for the same seller |
| Seller.Previews | src/pages/seller/EditProduct.tsx:81-83 | three preview slots: the product's images (or its single image) padded with empty slots |
| Seller.FormOfAsWritten | src/pages/seller/EditProduct.tsx:75 | as written, the commission field is the stored commission, or 10 when it is missing or 0 |
| Seller.FormOf | src/pages/seller/EditProduct.tsx:66-79 | the form holds the product's fields, with 10 only for a missing commission |
| Seller.LoadEdit | src/pages/seller/EditProduct.tsx:57-87 | a missing product or one of another seller fills nothing; otherwise the form and the previews come from the product |
| Seller.ReplaceSlot | src/pages/seller/EditProduct.tsx:89-100 | choosing an image changes its slot and keeps the others |
| Seller.FinalUrls | src/pages/seller/EditProduct.tsx:111-122 | each slot gives its upload when a file was chosen, else its preview when that is an absolute URL; an upload failure stops the submit |
| Seller.UpdateOf | src/pages/seller/EditProduct.tsx:130-144 | the update carries the final images; empty optional fields are written as null and the commission is 0 when affiliation is off |
| Seller.SubmitEdit | src/pages/seller/EditProduct.tsx:102-160 | nothing happens without a user; a save needs at least one image and a successful write, and writes the form's update |
| Seller.ZeroCommissionBecomesTenAsWritten | src/pages/seller/EditProduct.tsx:75-139 | as written, saving the untouched form of an affiliate product whose commission is 0 writes 10 |
| Seller.UntouchedSaveKeepsProduct | src/pages/seller/EditProduct.tsx:57-160 | saving the untouched form keeps the images, name, affiliation, commission, category, city and minimum quantity |
| Seller.UntouchedSlots | src/pages/seller/EditProduct.tsx:111-122 | untouched slots holding absolute URLs give those URLs back |
| Seller.ActiveImages | src/pages/seller/AddProduct.tsx:69 | the chosen files in slot order, empty exactly when no slot holds one |
| Seller.SubmitAdd | src/pages/seller/AddProduct.tsx:67-110 | refused without a user or an image; otherwise a row for the user with one URL per chosen file, the first as the main image, written when all uploads and the insert succeed |
| Seller.AddedImagesReopen | src/pages/seller/AddProduct.tsx:81-99 | a product just added opens in the editor with its images in the first slots, and saving it untouched keeps them |
| Seller.AddDiscountPreview | src/pages/seller/AddProduct.tsx:210-212 | the discount preview appears exactly when the catalogue card would strike the price, shows the same percentage, and stays within 0–100% |
| Routing.Get | src/App.tsx:60-61 | `params.get` gives a value stored under the key, and nothing exactly when no pair has the key |
| Routing.TrackRef | src/App.tsx:59-69 | a non-empty `ref` is stored as the session's referrer and the query string is dropped; otherwise nothing changes |
| Routing.TrackRefOnce | src/App.tsx:59-69 | the rewritten location carries no `ref`, so running the effect again changes nothing, and a referrer seen is kept |
| Routing.Render | src/App.tsx:71-136 | the spinner exactly while the session loads; public pages for everyone; protected pages only signed in, else /auth; /auth only signed out; /admin only for an admin; /affiliate for an affiliate, home for other roles, nothing while the profile loads |
| Routing.RoutesClassified | src/App.tsx:97-136 | every route is public, protected, or one of /auth, /admin and /affiliate, and none is both public and protected |
| Routing.RedirectsSettle | src/App.tsx:97-136 | following a redirect with the same session shows its target, so no route redirects in a loop |
| Routing.SignedOutSees | src/App.tsx:97-136 | a signed-out visitor sees the home, product, store and sign-in pages, and nothing else |
| Routing.ChromeOf | src/App.tsx:91-139 | the header shows exactly for a signed-in user; the bottom navigation and its padding exactly off /admin paths |
| Routing.AdminPathsHideNav | src/App.tsx:91-139 | every path under /admin hides the navigation, and the home page shows it |
| Entities.ParseStatus | src/services/orderService.ts:4 | reading a status column gives a status that writes back as the same text |
| Entities.StatusRoundTrip | src/services/orderService.ts:4 | writing a well-formed status and reading it back gives the same status |
| Entities.Filter | src/pages/seller/SellerDashboard.tsx:61 | `filter` keeps exactly the elements that pass, as a sub-list in their order, each as often as it appears in the input |
| Entities.FilterTwice | src/pages/orders/OrdersList.tsx:72-91 | two filters in a row keep, in order and each as often as it appears, the elements passing both |
| Entities.KeepsCountsReordered | src/services/orderService.ts:153-178 | sorting what a filter kept keeps how often each element occurs |
| Entities.FilterAppend | src/services/storeService.ts:99-136 | filtering a concatenation filters each part |
| Entities.FilterAllKept | src/pages/home/Home.tsx:49-55 | a filter every element passes keeps the list as it is |
| Entities.CountIsFilterLength | src/pages/orders/OrdersList.tsx:93-102 | counting the elements that pass is the length of the filtered list |
| Entities.Round | src/components/products/ProductCard.tsx:19 | `Math.round` gives the nearest integer, halves rounded up |
| Entities.SumPermutation | src/pages/store/StorePage.tsx:85-86 | a `reduce` sum does not depend on the order of the rows |
| Sorting.InsertPos | src/pages/home/Home.tsx:114-117 | a stable insertion puts an element after every element that may precede it |
| Sorting.Insert | src/pages/home/Home.tsx:114-117 | inserting into a sorted list keeps it sorted and adds one element |
| Sorting.SortBy | src/pages/home/Home.tsx:114-117 | `sort` with a key comparator gives a sorted permutation of the list |
| Sorting.InsertWithKey | src/pages/home/Home.tsx:114-117 | inserting appends the element to those of its own key and leaves the other keys' elements alone |
| Sorting.SortByStable | src/pages/home/Home.tsx:114-117 | sorting keeps the relative order of elements with equal keys, as `Array.prototype.sort` does |
| Sorting.SortBySorted | src/pages/home/Home.tsx:114-117 | a list already in order is left as it is |
| Sorting.InsertAtEnd | src/hooks/useMessages.ts:34-36 | an element every other may precede goes at the end |

## Left out

- Text.Lower: only ASCII and Latin-1 capitals are lowered, and `Text.Upper` likewise raises only ASCII and Latin-1 letters. JavaScript's `toLowerCase` and `toUpperCase` cover all of Unicode and may change the length ("İ" lowers to "i" plus a combining dot, and "ß" uppers to "SS"). So the searches of the home page, the order lists and the affiliate missions miss case differences in Greek or Cyrillic text. The full Unicode case tables are data, not logic.
- Slug.SlugKeepsAlnums: it is stated for the reduced `Text.Lower`. JavaScript turns "İzmir" into the slug "izmir", and the model gives "zmir". For the Kelvin sign U+212A JavaScript gives "k", and the model gives "".
- Slug.SlugEmpty: it is stated for the reduced `Text.Lower`, so a name made only of non-Latin-1 capitals that JavaScript lowers to ASCII letters (the Kelvin sign) gives an empty slug in the model but not in the source.
- Unicode NFD normalisation in `normalizeText` is the parameter `nfd`. Only the removal of combining marks (U+0300 to U+036F) and the lowercasing after it are modelled.
- Floating-point arithmetic is left out because amounts are exact reals. `Math.round` is modelled on reals; `toFixed`, `toLocaleString` and the way a number is printed into a CSV cell are parameters.
- Dates are left out: `toLocaleDateString`, `toLocaleTimeString`, ISO date strings and the calendar behind `getMonth`/`getFullYear` in getMemberSince. Instants are integer milliseconds, and the month and year are inputs.
- Database and network calls (Supabase queries, Cloudinary uploads, the payment gateway, `req.json()` failures in the webhook) are not modelled as I/O. Query results are inputs, writes return the new state, and faults the code checks are inputs, as flags or optional error messages.
- Rows with the same `created_at` come back from the database in an order the code does not fix. The model sorts them with a stable sort and does not claim which of the tied rows comes first.
- A charge id containing `%` or `_` is treated as text in the webhook's `ilike` lookup; SQL pattern wildcards are not modelled.
- The `Tally` of order counts per status does not model JavaScript prototype keys: a raw status named like an `Object.prototype` member ("constructor") is not distinguished.
- NaN reaches the screen when a price is not a number; the model keeps such values as `None` and does not model how NaN renders.
- FileReader previews of chosen images, the image lightbox and the chat's sticker list are presentation and browser I/O.
- The optimistic copy of a sent message keeps its temporary id, so the realtime copy of the same message is added beside it. The refetch that later replaces both is a query result, so it is not modelled.
- The notification bell's first fetch of the latest notifications is an input; only the updates after it are modelled.
- The payment-return hook (src/hooks/useYabetooReturn.ts) is modelled on its own. No component among the modelled files mounts it, and the `/payment-success` navigation it makes drops the order id; the combined flow is not modelled.
- Matching a URL path to a route is left out, because the router does it; `Routing.Render` starts from the matched route.
- src/context/AuthContext.tsx is left out, because its purpose is concurrency: auth listeners, tab synchronisation and timed retries. The session is the input `Routing.Session`.
- Presentation-only components are left out: skeletons, the toast component, the header, the bottom navigation, the order tabs and stats bar, the profile and sign-in pages, and the admin shell. So are the thin admin tabs for the overview, categories, cities, disputes and withdrawals.
- The React Query hooks (useProfile, useTransactions, useOrderCounts, useConversations and the rest) are left out, because they only wire queries. Their one sum, over delivered orders, is modelled in `Seller.Stats` and `Store.Stats`.
- affiliateService's requestVipStatus and getVipStatus are single-row writes and reads with no logic of their own.
- Several single queries have no logic beyond their filters and are left out: getConversationById, getUnreadCountByConversation, getOrderById, getOrdersByAffiliate, updateTransactionStatus and getAllTransactions. So are getOrdersByBuyer and getOrdersBySeller, whose only role is the aliased join recorded under the findings.
- getMessages' fallback to a query without the order join, and sendMessage's retry without `order_id` on error 42703, only recover from a missing database column. The model assumes the schema has it.
- uploadMedia and kycService's uploadKYCDocument are file uploads. Their result is the input `upload`.
- The store page's fetch of the seller's reviews is an input to the review list. The seller dashboard's rating and review totals are computed in the database.
- The Playwright tests, test-transactions.js and vite.config.ts are test scripts and build configuration.

## Findings

| source | as written | input that shows it | evidently intended | confidence | as-written member | corrected member |
|---|---|---|---|---|---|---|
| src/components/orders/OrderDetailsModal.tsx:128-131 | the total shown to the buyer is `amount + commission_amount` | amount 1000 with commission 50 shows a total of 1050 | the total is the amount charged; the commission is taken out of it, not added on top | not executed | OrderViews.TotalOverstatedAsWritten | OrderViews.TotalIsChargedAmount |
| src/components/orders/OrderDetailsModal.tsx:121 | the commission line is guarded by `commission_amount && …` | a commission of 0 renders a stray "0" | a commission of 0 shows nothing | not executed | OrderViews.StrayZeroAsWritten | OrderViews.CommissionSlotMatchesAmounts |
| src/pages/orders/OrdersList.tsx:80-89 | the search and the contact name read `order.profiles`, but the list queries alias the join as `seller:` and `buyer:` (src/services/orderService.ts:98, 114) | a buyer searching for a store's name finds none of its orders | the search matches the other party's store or full name | not executed | OrderViews.StoreSearchMissedAsWritten | OrderViews.FilterOrders |
| src/services/invoiceService.ts:314 | each cell is wrapped in quotes, but quotes inside it are not doubled | a product named `24" HD` gives a line that does not read back | cells escaped as in RFC 4180, so the export reads back to the table | not executed | Invoices.ExportAsWrittenBreaks | Invoices.ExportCsvRoundTrip |
| src/pages/home/Home.tsx:114-129 | with no filter the list is the `products` state itself, and `.sort` sorts it in place | sort by price, then choose relevance: the price order stays | relevance shows the products in the order they were loaded | not executed | Catalogue.RelevanceAfterSortAsWritten | Catalogue.RelevanceKeepsLoadedOrder |
| src/pages/products/ProductDetail.tsx:550-558 | on blur, two `setQuantity` calls both test the stale quantity, and the last write wins | minimum order 5, stock 3, quantity 3: blur sets 5, above the stock | the quantity stays within the minimum order and the stock | not executed | ProductPage.BlurLiftsAboveStockAsWritten | ProductPage.BlurMatchesTyping |
| src/components/reviews/ReviewCarousel.tsx:14-44 | `touchEnd` is not reset when a touch starts | a tap at x=100 on a fresh carousel of 2 reviews moves to the second | a tap without movement keeps the index | not executed | Reviews.TapSwipesAsWritten | Reviews.TapKeepsIndex |
| src/components/reviews/ReviewsModal.tsx:59 | `hasMore` is computed from the length of the list before the reload | 20 shown, sort changed, 10 of 25 shown: no "more" button | after a reload the button shows while reviews remain | not executed | Reviews.SortChangeHidesMoreAsWritten | Reviews.SessionShowsPages |
| supabase/functions/yabetoo-webhook/index.ts:101 | only an order already `paid` is skipped | a repeated payment event for a shipped order sets it back to paid | a repeated event never moves an order back | not executed | Payments.RedeliveryUnshipsAsWritten | Payments.WebhookNeverRegresses |
| src/pages/seller/EditProduct.tsx:75 | the form loads the commission with a fallback to 10 when it is falsy | a product with commission 0, saved untouched, is written with 10 | an untouched save keeps the product's commission | not executed | Seller.ZeroCommissionBecomesTenAsWritten | Seller.UntouchedSaveKeepsProduct |
| src/pages/admin/components/SettingsTab.tsx:41-44 | each loaded rate falls back to its default when falsy | a commission rate of 0 is saved and reloads as 5 | a saved setting reloads as saved | not executed | Admin.ZeroCommissionReloadsAsFive | Admin.SaveThenLoad |
| src/pages/store/StorePage.tsx:85-90 | the owner's turnover is revenue plus commissions, though the commission is part of the amount | one delivered order of 1000 with commission 100 shows 1100 | the turnover is the sum of amounts, split into the seller's share and the commissions | not executed | Store.TurnoverDoubleCountsAsWritten | Store.SplitTurnover |
