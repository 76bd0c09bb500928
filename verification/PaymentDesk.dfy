/** The handlers that take payments and send orders to the providers, over their tables beside the shop. Every method
    is proved against the function that says what its handler does to the whole state, and keeps the invariant of
    every run. */
module PaymentDesk {
  import opened Domain
  import opened Wallets
  import opened Orders
  import opened Invariant
  import opened Runs
  import opened UrlQuery
  import opened OnePay
  import opened Topups
  import opened Payment
  import opened ShopService

  class Desk {
    const shop: Shop
    var numbers: map<string, OrderId>
    var payments: map<OrderId, Option<string>>
    var submissions: seq<OrderId>
    var direct: set<OrderId>
    var urls: set<OrderId>
    var topups: map<string, Topup>
    var links: map<string, Link>

    function State(): Gateway
      reads this, shop
    {
      Gateway(shop.State(), numbers, payments, submissions, direct, urls, topups, links)
    }

    ghost predicate Valid()
      reads this, shop
    {
      GatewayOk(State())
    }

    constructor (start: Millis)
      ensures State() == EmptyGateway(start) && Valid() && fresh(shop)
    {
      shop := new Shop(start);
      numbers, payments, submissions, direct, urls, topups, links := map[], map[], [], {}, {}, map[], map[];
      new;
      EmptyGatewayOk(start);
    }

    /** payment.service.ts: createCheckout. An order the wallet covers entirely is finalized and sent at once. */
    method CreateCheckout(user: UserId, req: CheckoutRequest) returns (id: OrderId, error: Option<CheckoutError>)
      modifies this, shop
      ensures State() == ShopStep(old(State()), PlaceCheckout(user, req))
      ensures old(Valid()) ==> Valid()
    {
      PlacingIs(State(), user, req);
      PlacingValid(State(), PlaceCheckout(user, req));
      hide GatewayOk, Inv, PlaceOrder, Finalize, ShopStep;
      id, error := shop.CreatePendingOrder(user, req);
      if error.None? {
        FinishCheckout(id);
      }
    }

    /** createCheckout once its order is placed: nothing left to pay, or a payment URL. */
    method FinishCheckout(id: OrderId)
      requires id < |shop.orders|
      modifies this, shop
      ensures State() == CheckedOut(old(State()), Placed(old(State()).db, id))
    {
      if shop.orders[id].payable <= 0 {
        PayAndSend(id);
      } else {
        urls := urls + {id};
      }
    }

    /** finalizePaidOrder and submitProviders. */
    method PayAndSend(id: OrderId)
      requires id < |shop.orders|
      modifies this, shop
      ensures State() == PaidAndSent(old(State()), Placed(old(State()).db, id))
    {
      shop.FinalizePaidOrder(id);
      submissions := submissions + [id];
    }

    /** orders.service.ts: submitManualOrder. */
    method SubmitManualOrder(user: UserId, subtotal: int) returns (id: OrderId)
      modifies this, shop
      ensures State() == ShopStep(old(State()), PlaceManual(user, subtotal))
      ensures old(Valid()) ==> Valid()
    {
      var error;
      var req := CheckoutRequest(subtotal, None, None, 0);
      ManualIs(State(), user, subtotal);
      PlacingValid(State(), PlaceManual(user, subtotal));
      hide GatewayOk, Inv, PlaceOrder, Finalize, ShopStep;
      id, error := shop.CreatePendingOrder(user, req);
      if error.None? {
        PayAndSend(id);
      }
    }

    /** orders.service.ts: submitOrder places the order and sends it without waiting for a payment. */
    method SubmitOrder(user: UserId, req: CheckoutRequest) returns (id: OrderId, error: Option<CheckoutError>)
      modifies this, shop
      ensures State() == ShopStep(old(State()), PlaceDirect(user, req))
      ensures old(Valid()) ==> Valid()
    {
      PlacingIs(State(), user, req);
      PlacingValid(State(), PlaceDirect(user, req));
      hide GatewayOk, Inv, PlaceOrder, Finalize, ShopStep;
      id, error := shop.CreatePendingOrder(user, req);
      if error.None? {
        submissions := submissions + [id];
        direct := direct + {id};
      }
    }

    /** payment.service.ts: handleIpn */
    method HandleIpn(hash: string -> string, query: seq<Param>) returns (code: string)
      modifies this, shop
      ensures Answer(State(), code) == Payment.HandleIpn(hash, old(State()), query)
      ensures old(Valid()) ==> Valid()
    {
      NoticeValid(hash, State(), query);
      hide GatewayOk, VerifyIpn, StartsWith, ValueOf, Finalize, Cancel, OnNotice, FinalizeLink;
      if !VerifyIpn(hash, query) {
        return "97";
      }
      var reference := ValueOf(query, REFERENCE);
      if reference.None? || reference.value == "" {
        return "01";
      }
      var number := reference.value;
      if StartsWith(number, TOPUP_PREFIX) {
        code := HandleTopupIpn(query, number);
        return;
      }
      if StartsWith(number, LINK_PREFIX) {
        if number !in links {
          return "01";
        }
        FinalizeFromIpn(number, PaymentSuccess(query), ValueOf(query, TRANSACTION_NO));
        return "00";
      }
      if number !in numbers || |shop.orders| <= numbers[number] {
        return "01";
      }
      var o := numbers[number];
      if shop.orders[o].status != Unpaid {
        return "00";
      }
      if !PaymentSuccess(query) {
        shop.HandleOrderIpn(o, false);
        return "00";
      }
      shop.HandleOrderIpn(o, true);
      payments := payments[o := ValueOf(query, TRANSACTION_NO)];
      submissions := submissions + [o];
      code := "00";
    }

    /** payment.service.ts: handleTopupIpn; the job is left to run in the background. */
    method HandleTopupIpn(query: seq<Param>, number: string) returns (code: string)
      modifies this`topups
      ensures number !in old(topups) ==> code == "01" && State() == old(State())
      ensures number in old(topups) ==>
                code == "00"
                && State() == old(State()).(topups := old(topups)[number :=
                     OnNotice(old(topups)[number], PaymentSuccess(query), ValueOf(query, TRANSACTION_NO))])
    {
      if number !in topups {
        return "01";
      }
      var topup := topups[number];
      if topup.status == TopupPending {
        if !PaymentSuccess(query) {
          topup := topup.(status := TopupFailed);
        } else {
          topup := topup.(status := TopupPaid, paymentId := ValueOf(query, TRANSACTION_NO));
          topup := topup.(job := Scheduled);
        }
      }
      topups := topups[number := topup];
      code := "00";
    }

    /** custom-payment-links.service.ts: finalizeFromIpn */
    method FinalizeFromIpn(id: string, success: bool, paymentId: Option<string>)
      modifies this`links
      ensures id !in old(links) ==> links == old(links)
      ensures id in old(links) ==> links == old(links)[id := FinalizeLink(old(links)[id], success, paymentId)]
    {
      if id !in links {
        return;
      }
      var link := links[id];
      if link.status == LinkPending {
        link := link.(status := if success then LinkPaid else LinkFailed, paymentId := paymentId);
      }
      links := links[id := link];
    }

    /** topup.service.ts: executeTopup up to its provider call; called tells whether the provider is being called. */
    method BeginTopup(number: string, esimKnown: bool, saved: bool) returns (called: bool)
      requires number in topups && topups[number].job == Scheduled
      modifies this`topups
      ensures topups == old(topups)[number := Begin(old(topups)[number], esimKnown, saved)]
      ensures called <==> topups[number].job == Calling
      ensures old(Valid()) ==> Valid()
    {
      var topup := topups[number];
      called := false;
      if topup.status == TopupCompleted || topup.status == ManualIntervention {
        topup := topup.(job := Finished(true));
      } else if topup.provider.None? || topup.package == "" || topup.iccid == "" {
        topup := MarkManual(topup, saved);
      } else {
        match topup.provider.value {
          case Unsupported => topup := MarkManual(topup, saved);
          case GadgetKorea =>
            called := esimKnown;
            if !called {
              topup := MarkManual(topup, saved);
            }
          case _ => called := true;
        }
        if called {
          topup := topup.(job := Calling, calls := topup.calls + 1);
        }
      }
      topups := topups[number := topup];
      EventValid((s: string) => s, old(State()), TopupStep(number, BeginJob(esimKnown, saved)), State());
    }

    /** topup.service.ts: executeTopup once the provider answered or threw. */
    method EndTopup(number: string, accepted: bool, completionSaved: bool, manualSaved: bool)
      requires number in topups && topups[number].job == Calling
      modifies this`topups
      ensures topups == old(topups)[number := End(old(topups)[number], accepted, completionSaved, manualSaved)]
      ensures old(Valid()) ==> Valid()
    {
      var topup := topups[number];
      if accepted && completionSaved {
        topup := topup.(status := TopupCompleted, job := Finished(true));
      } else {
        topup := MarkManual(topup, manualSaved);
      }
      topups := topups[number := topup];
      EventValid((s: string) => s, old(State()), TopupStep(number, EndJob(accepted, completionSaved, manualSaved)),
                 State());
    }

    /** topup.service.ts: checkout, once the price is known; the new row is pending. */
    method OpenTopup(number: string, topup: Topup)
      requires number !in topups && Topups.Fresh(topup)
      modifies this`topups
      ensures State() == old(State()).(topups := old(topups)[number := topup])
      ensures old(Valid()) ==> Valid()
    {
      topups := topups[number := topup];
      EventValid((s: string) => s, old(State()), Event.OpenTopup(number, topup), State());
    }

    /** custom-payment-links.service.ts: create, as far as the link's status goes. */
    method OpenLink(id: string)
      requires id !in links
      modifies this`links
      ensures State() == old(State()).(links := old(links)[id := Link(LinkPending, None)])
      ensures old(Valid()) ==> Valid()
    {
      links := links[id := Link(LinkPending, None)];
      EventValid((s: string) => s, old(State()), Event.OpenLink(id), State());
    }

    /** The unique order number of a placed order. */
    method NumberOrder(number: string, o: OrderId)
      requires number !in numbers && o < |shop.orders|
      modifies this`numbers
      ensures State() == old(State()).(numbers := old(numbers)[number := o])
      ensures old(Valid()) ==> Valid()
    {
      numbers := numbers[number := o];
      EventValid((s: string) => s, old(State()), Event.NumberOrder(number, o), State());
    }
  }

  lemma EventValid(hash: string -> string, g: Gateway, e: Event, after: Gateway)
    requires after == Happen(hash, g, e)
    ensures GatewayOk(g) ==> GatewayOk(after)
  {
    hide GatewayOk, Happen;
    if GatewayOk(g) {
      EventKeepsGateway(hash, g, e);
    }
  }

  lemma NoticeValid(hash: string -> string, g: Gateway, query: seq<Param>)
    ensures GatewayOk(g) ==> GatewayOk(Payment.HandleIpn(hash, g, query).gateway)
  {
    EventValid(hash, g, Ipn(query), Payment.HandleIpn(hash, g, query).gateway);
    hide GatewayOk, Payment.HandleIpn;
  }

  lemma PlacingValid(g: Gateway, step: Step)
    requires !step.PaymentNotice?
    ensures GatewayOk(g) ==> GatewayOk(ShopStep(g, step))
  {
    hide GatewayOk, ShopStep;
    if GatewayOk(g) {
      ShopStepKeeps(g, step);
    }
  }

  /** Placing leaves a new order unpaid, finalizing it makes it paid. */
  lemma CheckoutPays(db: Db, user: UserId, req: CheckoutRequest)
    ensures var placed := PlaceOrder(db, user, req);
            && (|db.orders| < |placed.db.orders| ==> !WasPaid(placed.db.orders[|db.orders|]))
            && (placed.Placed? ==>
                  placed.id == |db.orders| && WasPaid(Finalize(placed.db, placed.id).orders[placed.id]))
  {
    PlaceOrders(db, user, req);
    hide PlaceOrder, CompleteBenefits;
    var placed := PlaceOrder(db, user, req);
    if placed.Placed? {
      var paid := placed.db.orders[placed.id].(status := Paid);
      BenefitsOrders(placed.db.(orders := placed.db.orders[placed.id := paid]), placed.id);
    }
  }

  /** The three ways of placing an order, as their handlers go about it. */
  lemma PlacingIs(g: Gateway, user: UserId, req: CheckoutRequest)
    ensures ShopStep(g, PlaceCheckout(user, req)) == CheckedOut(g, PlaceOrder(g.db, user, req))
    ensures ShopStep(g, PlaceDirect(user, req)) == SentDirectly(g, PlaceOrder(g.db, user, req))
  {
    CheckoutPays(g.db, user, req);
    PlaceOrders(g.db, user, req);
    hide PlaceOrder, Finalize, WasPaid;
    assert g.submissions + [] == g.submissions && g.direct + {} == g.direct && g.urls + {} == g.urls;
  }

  ghost function CheckedOut(g: Gateway, placed: Placement): Gateway
    requires placed.Placed? ==> placed.id < |placed.db.orders|
  {
    if placed.Refused? then g.(db := placed.db)
    else if placed.db.orders[placed.id].payable <= 0 then PaidAndSent(g, placed)
    else g.(db := placed.db, urls := g.urls + {placed.id})
  }

  ghost function SentDirectly(g: Gateway, placed: Placement): Gateway {
    if placed.Refused? then g.(db := placed.db)
    else g.(db := placed.db, submissions := g.submissions + [placed.id], direct := g.direct + {placed.id})
  }

  ghost function PaidAndSent(g: Gateway, placed: Placement): Gateway
    requires placed.Placed? ==> placed.id < |placed.db.orders|
  {
    if placed.Refused? then g.(db := placed.db)
    else g.(db := Finalize(placed.db, placed.id), submissions := g.submissions + [placed.id])
  }

  lemma ManualIs(g: Gateway, user: UserId, subtotal: int)
    ensures ShopStep(g, PlaceManual(user, subtotal))
         == PaidAndSent(g, PlaceOrder(g.db, user, CheckoutRequest(subtotal, None, None, 0)))
  {
    CheckoutPays(g.db, user, CheckoutRequest(subtotal, None, None, 0));
    PlaceOrders(g.db, user, CheckoutRequest(subtotal, None, None, 0));
    hide PlaceOrder, Finalize, WasPaid;
    assert g.submissions + [] == g.submissions && g.direct + {} == g.direct && g.urls + {} == g.urls;
  }
}
