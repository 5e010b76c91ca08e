/** Payment reconciliation: the gateway's webhook that marks an order paid
    (supabase/functions/yabetoo-webhook/index.ts), the page the buyer lands
    on after paying (src/pages/orders/PaymentSuccess.tsx) and the hook that
    reads the gateway's return parameters (src/hooks/useYabetooReturn.ts). */
module Payments {
  import opened Wrappers
  import opened Text
  import opened Entities

  // ---- The webhook ---------------------------------------------------------

  /** The fields the webhook reads from one level of the JSON body; the
      two `metadata` fields are flattened. An absent field is `None`. */
  datatype Fields = Fields(
    status: Option<string>,
    event: Option<string>,
    intentId: Option<string>,
    id: Option<string>,
    reference: Option<string>,
    metaOrderId: Option<string>,
    metaOrderIdSnake: Option<string>,
    externalId: Option<string>)

  /** The body: its own fields and the nested `data` object, if any. */
  datatype Payload = Payload(top: Fields, data: Option<Fields>)

  /** `payload.data || payload`. */
  function DataOf(p: Payload): (d: Fields)
    ensures p.data.Some? ==> d == p.data.value
    ensures p.data.None? ==> d == p.top
  {
    if p.data.Some? then p.data.value else p.top
  }

  /** JavaScript `a || b` on optional strings: `a` when truthy, else `b`. */
  function Or(a: Option<string>, b: Option<string>): (r: Option<string>)
    ensures Truthy(a) ==> r == a
    ensures !Truthy(a) ==> r == b
  {
    if Truthy(a) then a else b
  }

  /** `data.status || data.event`. */
  function StatusOf(p: Payload): (s: Option<string>)
    ensures Truthy(DataOf(p).status) ==> s == DataOf(p).status
    ensures !Truthy(DataOf(p).status) ==> s == DataOf(p).event
  {
    Or(DataOf(p).status, DataOf(p).event)
  }

  /** The first truthy value of a list, else the last one (a chain of `||`). */
  function FirstTruthy(vs: seq<Option<string>>): (r: Option<string>)
    requires vs != []
    ensures Truthy(r) <==> exists i :: 0 <= i < |vs| && Truthy(vs[i])
    ensures Truthy(r) ==> exists i :: 0 <= i < |vs| && vs[i] == r && forall j :: 0 <= j < i ==> !Truthy(vs[j])
  {
    if |vs| == 1 then vs[0]
    else
      var rest := FirstTruthy(vs[1..]);
      assert forall i :: 1 <= i < |vs| ==> vs[i] == vs[1..][i - 1];
      if Truthy(vs[0]) then vs[0]
      else
        assert Truthy(rest) ==> exists i :: 0 <= i < |vs| && vs[i] == rest && forall j :: 0 <= j < i ==> !Truthy(vs[j]) by {
          if Truthy(rest) {
            var i :| 0 <= i < |vs[1..]| && vs[1..][i] == rest && forall j :: 0 <= j < i ==> !Truthy(vs[1..][j]);
            assert vs[i + 1] == rest && forall j :: 0 <= j < i + 1 ==> !Truthy(vs[j]);
          }
        }
        rest
  }

  /** The six places an order id may come in, in the order they are tried. */
  function CandidateSources(p: Payload): (vs: seq<Option<string>>)
    ensures |vs| == 6
  {
    var d := DataOf(p);
    [d.reference, d.metaOrderId, d.metaOrderIdSnake, d.externalId, p.top.reference, p.top.externalId]
  }

  /** The order-id candidate, with one leading "ext_" removed. */
  function Candidate(p: Payload): (c: Option<string>)
    ensures var raw := FirstTruthy(CandidateSources(p));
            c.Some? <==> raw.Some?
    ensures var raw := FirstTruthy(CandidateSources(p));
            raw.Some? ==> (if StartsWith(raw.value, "ext_") then raw.value == "ext_" + c.value
                           else c.value == raw.value)
  {
    var raw := FirstTruthy(CandidateSources(p));
    if raw.Some? && StartsWith(raw.value, "ext_") then
      assert raw.value == "ext_" + raw.value[4..];
      Some(raw.value[4..])
    else raw
  }

  /** The webhook acts only on a succeeded or completed status, or on an
      `intent.completed` event at the top level. */
  predicate Succeeded(p: Payload) {
    StatusOf(p) == Some("succeeded") || StatusOf(p) == Some("completed")
    || p.top.event == Some("intent.completed")
  }

  /** The three lookups, each a query that must match exactly one row. */
  datatype Query = ById(id: string) | ByIntent(intent: string) | ByCharge(charge: string)

  /** A row a query matches. The charge lookup is `ilike '%charge%'` on the
      payment URL: a case-insensitive substring test. */
  predicate Hits(o: Order, q: Query) {
    match q
    case ById(id) => o.id == id
    case ByIntent(x) => o.intentId == Some(x)
    case ByCharge(c) => o.paymentUrl.Some? && Includes(Lower(o.paymentUrl.value), Lower(c))
  }

  function HitCount(t: seq<Order>, q: Query): (n: nat)
    ensures n <= |t|
  {
    if t == [] then 0 else (if Hits(t[0], q) then 1 else 0) + HitCount(t[1..], q)
  }

  function FirstHit(t: seq<Order>, q: Query): (i: nat)
    ensures i <= |t|
    ensures i < |t| ==> Hits(t[i], q)
    ensures forall j :: 0 <= j < i ==> !Hits(t[j], q)
    ensures i == |t| <==> HitCount(t, q) == 0
  {
    if t == [] then 0
    else if Hits(t[0], q) then 0
    else 1 + FirstHit(t[1..], q)
  }

  /** `.single()`: the row when exactly one matches, none otherwise. */
  function Single(t: seq<Order>, q: Query): (r: Option<nat>)
    ensures r.Some? <==> HitCount(t, q) == 1
    ensures r.Some? ==> r.value < |t| && Hits(t[r.value], q)
  {
    if HitCount(t, q) == 1 then Some(FirstHit(t, q)) else None
  }

  /** The lookup by order id, tried only for a candidate longer than twenty
      characters (UTF-16 units). */
  function IdQuery(p: Payload): Option<Query> {
    var c := Candidate(p);
    if c.Some? && Utf16Length(c.value) > 20 then Some(ById(c.value)) else None
  }

  /** The lookup by intent id, tried when the payload carries one. */
  function IntentQuery(p: Payload): Option<Query> {
    var d := DataOf(p);
    if Truthy(d.intentId) then Some(ByIntent(d.intentId.value)) else None
  }

  /** The lookup by charge id (`data.id`), tried when the payload carries one. */
  function ChargeQuery(p: Payload): Option<Query> {
    var d := DataOf(p);
    if Truthy(d.id) then Some(ByCharge(d.id.value)) else None
  }

  /** A lookup that is tried and matches exactly one row. */
  predicate Finds(t: seq<Order>, q: Option<Query>) {
    q.Some? && HitCount(t, q.value) == 1
  }

  /** The order the webhook settles: by order id when the candidate is
      longer than twenty characters (UTF-16 units), then by intent id, then
      by charge id in the payment URL. The result is a row index. An order
      is found exactly when one of the three lookups finds one row, and the
      first lookup that does decides which. */
  function Lookup(t: seq<Order>, p: Payload): (r: Option<nat>)
    ensures r.Some? ==> r.value < |t|
    ensures r.Some? <==> Finds(t, IdQuery(p)) || Finds(t, IntentQuery(p)) || Finds(t, ChargeQuery(p))
    ensures Finds(t, IdQuery(p)) ==> r.Some? && Hits(t[r.value], IdQuery(p).value)
    ensures !Finds(t, IdQuery(p)) && Finds(t, IntentQuery(p)) ==>
              r.Some? && Hits(t[r.value], IntentQuery(p).value)
    ensures !Finds(t, IdQuery(p)) && !Finds(t, IntentQuery(p)) && Finds(t, ChargeQuery(p)) ==>
              r.Some? && Hits(t[r.value], ChargeQuery(p).value)
  {
    var c := Candidate(p);
    var d := DataOf(p);
    var byId := if c.Some? && Utf16Length(c.value) > 20 then Single(t, ById(c.value)) else None;
    if byId.Some? then byId
    else
      var byIntent := if Truthy(d.intentId) then Single(t, ByIntent(d.intentId.value)) else None;
      if byIntent.Some? then byIntent
      else if Truthy(d.id) then Single(t, ByCharge(d.id.value))
      else None
  }

  /** The answer sent back to the gateway. */
  datatype Reply = Received | OrderNotFound | AlreadyProcessed | Failure(message: string)

  /** The HTTP status of a reply: only a failed update is not 200. */
  function HttpStatus(r: Reply): (code: int)
    ensures code == 400 <==> r.Failure?
    ensures code == 200 <==> !r.Failure?
  {
    if r.Failure? then 400 else 200
  }

  /** The row after the update: paid, the gateway status written (left as
      it was when absent) and the intent id kept when the payload has none. */
  function Settled(o: Order, p: Payload): (r: Order)
    ensures r.status == Paid && r.id == o.id && r.paymentUrl == o.paymentUrl
    ensures r.gatewayStatus == (if StatusOf(p).Some? then StatusOf(p) else o.gatewayStatus)
    ensures r.intentId == Or(DataOf(p).intentId, o.intentId)
    ensures r == o.(status := Paid, gatewayStatus := r.gatewayStatus, intentId := r.intentId)
  {
    o.(status := Paid,
       gatewayStatus := if StatusOf(p).Some? then StatusOf(p) else o.gatewayStatus,
       intentId := Or(DataOf(p).intentId, o.intentId))
  }

  /** `.update(...).eq('id', target.id)`: every row with the target's id. */
  function UpdateRows(t: seq<Order>, target: Order, p: Payload): (r: seq<Order>)
    ensures |r| == |t|
    ensures forall j :: 0 <= j < |t| ==>
              r[j] == if t[j].id == target.id then Settled(t[j], p).(intentId := Or(DataOf(p).intentId, target.intentId))
                      else t[j]
  {
    seq(|t|, j requires 0 <= j < |t| =>
      if t[j].id == target.id then Settled(t[j], p).(intentId := Or(DataOf(p).intentId, target.intentId)) else t[j])
  }

  /** The webhook as written: only an order already `paid` is skipped. */
  function WebhookAsWritten(t: seq<Order>, p: Payload, updateError: Option<string>): (r: (seq<Order>, Reply))
    ensures !Succeeded(p) ==> r == (t, Received)
    ensures Succeeded(p) && Lookup(t, p).None? ==> r == (t, OrderNotFound)
    ensures Succeeded(p) && Lookup(t, p).Some? ==>
              var o := t[Lookup(t, p).value];
              if o.status == Paid then r == (t, AlreadyProcessed)
              else if updateError.Some? then r == (t, Failure(updateError.value))
              else r == (UpdateRows(t, o, p), Received)
  {
    if !Succeeded(p) then (t, Received)
    else match Lookup(t, p)
      case None => (t, OrderNotFound)
      case Some(i) =>
        if t[i].status == Paid then (t, AlreadyProcessed)
        else if updateError.Some? then (t, Failure(updateError.value))
        else (UpdateRows(t, t[i], p), Received)
  }

  /** Statuses an order reaches only after its payment. */
  predicate PaidAlready(s: Status) {
    s == Paid || s == Shipped || s == Delivered
  }

  /** The webhook with the evidently intended guard: an order whose payment
      was already recorded (paid, shipped or delivered) is left alone. */
  function Webhook(t: seq<Order>, p: Payload, updateError: Option<string>): (r: (seq<Order>, Reply))
    ensures !Succeeded(p) ==> r == (t, Received)
    ensures Succeeded(p) && Lookup(t, p).None? ==> r == (t, OrderNotFound)
    ensures Succeeded(p) && Lookup(t, p).Some? ==>
              var o := t[Lookup(t, p).value];
              if PaidAlready(o.status) then r == (t, AlreadyProcessed)
              else if updateError.Some? then r == (t, Failure(updateError.value))
              else r == (UpdateRows(t, o, p), Received)
    ensures r.0 != t ==> r.1 == Received && Succeeded(p)
  {
    if !Succeeded(p) then (t, Received)
    else match Lookup(t, p)
      case None => (t, OrderNotFound)
      case Some(i) =>
        if PaidAlready(t[i].status) then (t, AlreadyProcessed)
        else if updateError.Some? then (t, Failure(updateError.value))
        else (UpdateRows(t, t[i], p), Received)
  }

  /** Order ids are a primary key. */
  predicate UniqueIds(t: seq<Order>) {
    forall i, j :: 0 <= i < j < |t| ==> t[i].id != t[j].id
  }

  /** With unique ids the update touches the found row only. */
  lemma UpdateOneRow(t: seq<Order>, i: nat, p: Payload)
    requires UniqueIds(t) && i < |t|
    ensures UpdateRows(t, t[i], p) == t[i := Settled(t[i], p)]
    ensures UniqueIds(UpdateRows(t, t[i], p))
  {
    var r := UpdateRows(t, t[i], p);
    forall j | 0 <= j < |t| ensures r[j] == t[i := Settled(t[i], p)][j] {
      if j != i {
        assert t[j].id != t[i].id;
      }
    }
  }

  // ---- Lookup after an update ----------------------------------------------

  /** Rows that a query sees in the same places give the same count and the
      same first hit. */
  lemma {:induction false} SameHits(t: seq<Order>, u: seq<Order>, q: Query)
    requires |t| == |u|
    requires forall j :: 0 <= j < |t| ==> (Hits(t[j], q) <==> Hits(u[j], q))
    ensures HitCount(t, q) == HitCount(u, q) && FirstHit(t, q) == FirstHit(u, q)
    decreases |t|
  {
    if t != [] {
      SameHits(t[1..], u[1..], q);
    }
  }

  /** A row that starts to match adds exactly one hit. */
  lemma {:induction false} GainedHit(t: seq<Order>, u: seq<Order>, q: Query, i: nat)
    requires |t| == |u| && i < |t|
    requires forall j :: 0 <= j < |t| && j != i ==> (Hits(t[j], q) <==> Hits(u[j], q))
    requires !Hits(t[i], q) && Hits(u[i], q)
    ensures HitCount(u, q) == HitCount(t, q) + 1
    decreases |t|
  {
    if i == 0 {
      SameHits(t[1..], u[1..], q);
    } else {
      GainedHit(t[1..], u[1..], q, i - 1);
    }
  }

  /** The single hit is the first one. */
  lemma {:induction false} OnlyHit(t: seq<Order>, q: Query, i: nat)
    requires i < |t| && Hits(t[i], q) && HitCount(t, q) == 1
    ensures FirstHit(t, q) == i
    decreases |t|
  {
    if i > 0 {
      if Hits(t[0], q) {
        CountsAHit(t[1..], q, i - 1);
      } else {
        OnlyHit(t[1..], q, i - 1);
      }
    }
  }

  lemma {:induction false} CountsAHit(t: seq<Order>, q: Query, i: nat)
    requires i < |t| && Hits(t[i], q)
    ensures HitCount(t, q) >= 1
    decreases |t|
  {
    if i > 0 && !Hits(t[0], q) {
      CountsAHit(t[1..], q, i - 1);
    }
  }

  /** After the update, the same payload finds the same order again: the id
      and the payment URL are unchanged, and the intent lookup either still
      fails or now finds the updated row. */
  lemma LookupAgain(t: seq<Order>, p: Payload, i: nat)
    requires UniqueIds(t) && Lookup(t, p) == Some(i)
    ensures Lookup(t[i := Settled(t[i], p)], p) == Some(i)
  {
    var u := t[i := Settled(t[i], p)];
    var c := Candidate(p);
    var d := DataOf(p);
    forall q: Query | !q.ByIntent? ensures HitCount(t, q) == HitCount(u, q) && FirstHit(t, q) == FirstHit(u, q) {
      SameHits(t, u, q);
    }
    if Truthy(d.intentId) {
      var q := ByIntent(d.intentId.value);
      assert Hits(u[i], q);
      if Hits(t[i], q) {
        SameHits(t, u, q);
      } else {
        GainedHit(t, u, q, i);
        if HitCount(t, q) == 0 {
          OnlyHit(u, q, i);
        }
      }
    }
  }

  /** The webhook's point: a delivery that settled an order makes every
      later delivery of the same payload a no-op. */
  lemma WebhookIdempotent(t: seq<Order>, p: Payload, e: Option<string>)
    requires UniqueIds(t)
    ensures var once := Webhook(t, p, None).0;
            Webhook(once, p, e).0 == once
  {
    if Succeeded(p) && Lookup(t, p).Some? {
      var i := Lookup(t, p).value;
      if !PaidAlready(t[i].status) {
        UpdateOneRow(t, i, p);
        LookupAgain(t, p, i);
      }
    }
  }

  /** The webhook as written is idempotent too: right after an event is
      applied, the same event finds the same row, now paid, and leaves the
      orders as they are. */
  lemma WebhookAsWrittenIdempotent(t: seq<Order>, p: Payload, e: Option<string>)
    requires UniqueIds(t)
    ensures var once := WebhookAsWritten(t, p, None).0;
            WebhookAsWritten(once, p, e).0 == once
  {
    if Succeeded(p) && Lookup(t, p).Some? {
      var i := Lookup(t, p).value;
      if t[i].status != Paid {
        UpdateOneRow(t, i, p);
        LookupAgain(t, p, i);
      }
    }
  }

  /** The corrected webhook never moves an order back from shipped or
      delivered: every row keeps a status at least as far along. */
  lemma WebhookNeverRegresses(t: seq<Order>, p: Payload, e: Option<string>)
    requires UniqueIds(t)
    ensures var r := Webhook(t, p, e).0;
            |r| == |t| && forall j :: 0 <= j < |t| && PaidAlready(t[j].status) ==> r[j] == t[j]
  {
    if Succeeded(p) && Lookup(t, p).Some? && e.None? {
      var i := Lookup(t, p).value;
      if !PaidAlready(t[i].status) {
        UpdateOneRow(t, i, p);
      }
    }
  }

  /** As written, a repeated delivery for an order that has since shipped
      sets it back to paid. */
  lemma RedeliveryUnshipsAsWritten(t: seq<Order>, p: Payload)
    requires UniqueIds(t) && Succeeded(p) && Lookup(t, p).Some?
    requires t[Lookup(t, p).value].status == Shipped
    ensures var i := Lookup(t, p).value;
            WebhookAsWritten(t, p, None).0[i].status == Paid
            && Webhook(t, p, None).0[i].status == Shipped
  {
  }

  /** Such an input exists: a shipped order found by its reference. */
  lemma RedeliveryExample(o: Order)
    requires o.status == Shipped && Utf16Length(o.id) > 20 && !StartsWith(o.id, "ext_")
    ensures var none := Fields(None, None, None, None, None, None, None, None);
            var p := Payload(none.(status := Some("succeeded"), reference := Some(o.id)), None);
            Lookup([o], p) == Some(0)
            && WebhookAsWritten([o], p, None).0[0].status == Paid
  {
    var none := Fields(None, None, None, None, None, None, None, None);
    var p := Payload(none.(status := Some("succeeded"), reference := Some(o.id)), None);
    assert Truthy(CandidateSources(p)[0]);
    assert Candidate(p) == Some(o.id);
    assert HitCount([o], ById(o.id)) == 1;
  }

  // ---- PaymentSuccess -------------------------------------------------------

  datatype PayView = Validating | PaySucceeded | PayFailed

  /** One round of validatePayment as the services answer it: the status
      the first fetch reads (none when the order cannot be read) and
      whether updateOrderStatus fails. */
  datatype Attempt = Attempt(seen: Option<Status>, updateFails: bool)

  /** The outcome of validatePayment and how many updates it sent. */
  datatype Validation = Validation(view: PayView, updates: nat)

  /** The retries left when validatePayment starts. */
  const Retries: nat := 3

  /** validatePayment(id, retries) from round `k`: a paid order succeeds
      without an update; a failed update is retried while retries remain;
      after the last failure a final fetch decides. */
  function Validate(world: nat -> Attempt, k: nat, retries: nat, finalSeen: Option<Status>): (r: Validation)
    ensures r.updates <= retries + 1
    ensures r.view != Validating
    decreases retries
  {
    var a := world(k);
    if a.seen == Some(Paid) then Validation(PaySucceeded, 0)
    else if !a.updateFails then Validation(PaySucceeded, 1)
    else if retries > 0 then
      var rest := Validate(world, k + 1, retries - 1, finalSeen);
      Validation(rest.view, rest.updates + 1)
    else Validation(if finalSeen == Some(Paid) then PaySucceeded else PayFailed, 1)
  }

  /** Every round from `k` on for `n + 1` rounds found the order unpaid and
      failed its update. */
  predicate AllFail(world: nat -> Attempt, k: nat, n: nat) {
    forall j :: k <= j <= k + n ==> world(j).seen != Some(Paid) && world(j).updateFails
  }

  /** The page shows an error exactly when every round failed and the final
      fetch does not read the order as paid; the failing run sends
      `retries + 1` updates. */
  lemma {:induction false} ValidateFails(world: nat -> Attempt, k: nat, retries: nat, finalSeen: Option<Status>)
    ensures Validate(world, k, retries, finalSeen).view == PayFailed <==>
              AllFail(world, k, retries) && finalSeen != Some(Paid)
    ensures AllFail(world, k, retries) ==> Validate(world, k, retries, finalSeen).updates == retries + 1
    decreases retries
  {
    if retries > 0 {
      ValidateFails(world, k + 1, retries - 1, finalSeen);
      if world(k).seen != Some(Paid) && world(k).updateFails {
        assert AllFail(world, k, retries) <==> AllFail(world, k + 1, retries - 1);
      }
    }
  }

  /** The page: with an absent or empty `id` parameter it stays on
      "validating". */
  function PaymentPage(id: Option<string>, world: nat -> Attempt, finalSeen: Option<Status>): (v: Validation)
    ensures !Truthy(id) <==> v.view == Validating
    ensures !Truthy(id) ==> v.updates == 0
    ensures v.updates <= Retries + 1
    ensures world(0).seen == Some(Paid) ==> v.updates == 0
  {
    if !Truthy(id) then Validation(Validating, 0) else Validate(world, 0, Retries, finalSeen)
  }

  // ---- useYabetooReturn -----------------------------------------------------

  /** The two return parameters; `None` when absent. */
  datatype ReturnQuery = ReturnQuery(paymentStatus: Option<string>, orderId: Option<string>)

  /** What the hook does: nothing, rewrite the URL to the bare path, or
      navigate (replacing the history entry). */
  datatype ReturnAction = NoAction | CleanUrl(path: string) | Navigate(path: string, replace: bool)

  /** Handles one render: `processed` is the ref, which once set stops any
      further handling for the life of the component. */
  function OnReturn(processed: bool, q: ReturnQuery, pathname: string): (r: (bool, ReturnAction))
    ensures processed ==> r == (true, NoAction)
    ensures !processed ==> (r.0 <==> Truthy(q.paymentStatus) || Truthy(q.orderId))
    ensures r.1.CleanUrl? <==> !processed && (q.paymentStatus == Some("cancelled") || q.paymentStatus == Some("failed"))
    ensures r.1.CleanUrl? ==> r.1.path == pathname
    ensures r.1.Navigate? <==> !processed && q.paymentStatus == Some("success")
    ensures r.1.Navigate? ==> r.1 == Navigate("/payment-success", true)
  {
    if processed then (true, NoAction)
    else if !(Truthy(q.paymentStatus) || Truthy(q.orderId)) then (false, NoAction)
    else if q.paymentStatus == Some("cancelled") || q.paymentStatus == Some("failed") then (true, CleanUrl(pathname))
    else if q.paymentStatus == Some("success") then (true, Navigate("/payment-success", true))
    else (true, NoAction)
  }

  /** A return is handled once: whatever the next render sees, it does
      nothing. */
  lemma ReturnHandledOnce(q: ReturnQuery, q': ReturnQuery, pathname: string, pathname': string)
    requires Truthy(q.paymentStatus) || Truthy(q.orderId)
    ensures OnReturn(OnReturn(false, q, pathname).0, q', pathname') == (true, NoAction)
  {
  }
}
