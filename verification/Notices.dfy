/** What a payment notice does, read off the query and the rows: which of the three kinds of reference it is on, what
    it is answered, and what response code 0 and any other code make of an order, a topup or a link that waits for it.
    And which orders are given the payment URL that such a notice answers. */
module Notices {
  import opened Domain
  import opened Wallets
  import opened Orders
  import opened UrlQuery
  import opened OnePay
  import opened Topups
  import opened Payment
  import opened Runs
  import opened Acceptance

  datatype Kind = OnTopup | OnLink | OnOrder

  /** By the first characters of the reference. */
  function KindOf(reference: string): Kind {
    if 6 <= |reference| && reference[..6] == "TOPUP-" then OnTopup
    else if 5 <= |reference| && reference[..5] == "VORD-" then OnLink
    else OnOrder
  }

  predicate Known(g: Gateway, reference: string) {
    match KindOf(reference)
    case OnTopup => reference in g.topups
    case OnLink => reference in g.links
    case OnOrder => reference in g.numbers && g.numbers[reference] < |g.db.orders|
  }

  /** The reference a query carries; without one the empty string. */
  function Reference(query: seq<Param>): string {
    var value := ValueOf(query, "vpc_MerchTxnRef");
    if value.Some? then value.value else ""
  }

  predicate Approved(query: seq<Param>) {
    ValueOf(query, "vpc_TxnResponseCode") == Some("0")
  }

  /** 97 for a bad signature, 01 for a missing or unknown reference, 00 for everything else; the first two write
      nothing. */
  lemma AnswerIff(hash: string -> string, g: Gateway, query: seq<Param>)
    ensures var a, reference := HandleIpn(hash, g, query), Reference(query);
            && a.code in {"97", "01", "00"}
            && (a.code == "97" <==> !VerifyIpn(hash, query))
            && (a.code == "00" <==> VerifyIpn(hash, query) && reference != "" && Known(g, reference))
            && (a.code != "00" ==> a.gateway == g)
  {
    hide VerifyIpn, ValueOf, OrderNotice, OnNotice, FinalizeLink;
  }

  lemma OrderNoticeIs(g: Gateway, o: OrderId, success: bool, paymentId: Option<string>)
    requires o < |g.db.orders|
    ensures var after, order := OrderNotice(g, o, success, paymentId), g.db.orders[o];
            && |after.db.orders| == |g.db.orders|
            && (order.status == Unpaid ==>
                  if success then
                    && after.db.orders[o].status == Paid && after.payments == g.payments[o := paymentId]
                    && after.submissions == g.submissions + [o]
                  else after.db.orders[o].status == Failed && after.payments == g.payments
                       && after.submissions == g.submissions)
            && (order.status != Unpaid ==> after == g)
  {
    var d0 := g.db.(orders := g.db.orders[o := g.db.orders[o].(status := Paid)]);
    BenefitsOrders(d0, o);
    RollbackOrders(MarkFailed(g.db, o), o);
    hide CompleteBenefits, Rollback;
  }

  /** A signed notice on a pending order pays it if and only if the response code is 0, and then records the transaction
      number and sends the order; any other code, or none, fails it. */
  lemma OrderPaidIff(hash: string -> string, g: Gateway, query: seq<Param>)
    requires VerifyIpn(hash, query) && Reference(query) != ""
    requires KindOf(Reference(query)) == OnOrder && Known(g, Reference(query))
    requires g.db.orders[g.numbers[Reference(query)]].status == Unpaid
    ensures var o, after := g.numbers[Reference(query)], HandleIpn(hash, g, query).gateway;
            && |after.db.orders| == |g.db.orders|
            && (after.db.orders[o].status == Paid <==> Approved(query))
            && (after.db.orders[o].status == Failed <==> !Approved(query))
            && after.payments == (if Approved(query) then g.payments[o := ValueOf(query, "vpc_TransactionNo")]
                                  else g.payments)
            && after.submissions == (if Approved(query) then g.submissions + [o] else g.submissions)
  {
    var o := g.numbers[Reference(query)];
    OrderNoticeIs(g, o, PaymentSuccess(query), ValueOf(query, TRANSACTION_NO));
    hide VerifyIpn, ValueOf, OrderNotice;
  }

  /** A signed notice on a pending topup pays it and schedules its job if and only if the response code is 0, and
      fails it otherwise; the other topups stay. */
  lemma TopupPaidIff(hash: string -> string, g: Gateway, query: seq<Param>)
    requires VerifyIpn(hash, query) && Reference(query) != ""
    requires KindOf(Reference(query)) == OnTopup && Known(g, Reference(query))
    requires g.topups[Reference(query)].status == TopupPending
    ensures var t := g.topups[Reference(query)];
            HandleIpn(hash, g, query).gateway
            == g.(topups := g.topups[Reference(query) :=
                 if Approved(query)
                 then t.(status := TopupPaid, paymentId := ValueOf(query, "vpc_TransactionNo"), job := Scheduled)
                 else t.(status := TopupFailed)])
  {
    hide VerifyIpn, ValueOf, OrderNotice;
  }

  /** A signed notice on a pending link pays it if and only if the response code is 0, and fails it otherwise. */
  lemma LinkPaidIff(hash: string -> string, g: Gateway, query: seq<Param>)
    requires VerifyIpn(hash, query) && Reference(query) != ""
    requires KindOf(Reference(query)) == OnLink && Known(g, Reference(query))
    requires g.links[Reference(query)].status == LinkPending
    ensures HandleIpn(hash, g, query).gateway
         == g.(links := g.links[Reference(query) :=
              Link(if Approved(query) then LinkPaid else LinkFailed, ValueOf(query, "vpc_TransactionNo"))])
  {
    hide VerifyIpn, ValueOf, OrderNotice;
  }

  /** An order is given a payment URL if and only if a checkout places it and leaves it waiting for a payment; the other
      steps of the shop, and a checkout that is refused or paid at once, give none. */
  lemma UrlIff(g: Gateway, step: Step)
    ensures ShopStep(g, step).urls
         == if step.PlaceCheckout? then
              var r := Checkout(g.db, step.user, step.req);
              if r.Placed? && r.id < |r.db.orders| && r.db.orders[r.id].status == Unpaid then g.urls + {r.id}
              else g.urls
            else g.urls
  {
    assert g.urls + {} == g.urls;
    if step.PlaceCheckout? {
      PaidAtOnceIff(g.db, step.user, step.req, 0);
      PlacedUnpaid(g.db, step.user, step.req);
    }
    hide PlaceOrder, Finalize, Apply;
  }
}
