/** Payment notices: one entry point for orders, topups and custom payment links, told apart by the reference.
    Whatever else happens, the first valid notice on a reference decides and all others change nothing. */
module Payment {
  import opened Domain
  import opened Ledger
  import opened Wallets
  import opened Orders
  import opened OrderView
  import opened Statements
  import opened Invariant
  import opened Runs
  import opened RunGuarantees
  import opened UrlQuery
  import opened OnePay
  import opened Topups

  const REFERENCE := "vpc_MerchTxnRef"
  const RESPONSE_CODE := "vpc_TxnResponseCode"
  const TRANSACTION_NO := "vpc_TransactionNo"
  const TOPUP_PREFIX := "TOPUP-"
  const LINK_PREFIX := "VORD-"

  datatype LinkStatus = LinkPending | LinkPaid | LinkFailed
  datatype Link = Link(status: LinkStatus, paymentId: Option<string>)

  /** The shop, the order numbers, the payment ids of the orders paid online, the orders sent to the providers in the
      order they were sent, those among them that submitOrder placed, the orders that were given a payment URL, the
      topups and the custom payment links. */
  datatype Gateway = Gateway(db: Db, numbers: map<string, OrderId>, payments: map<OrderId, Option<string>>,
                             submissions: seq<OrderId>, direct: set<OrderId>, urls: set<OrderId>,
                             topups: map<string, Topup>, links: map<string, Link>)

  datatype Answer = Answer(gateway: Gateway, code: string)

  predicate PaymentSuccess(query: seq<Param>) {
    ValueOf(query, RESPONSE_CODE) == Some("0")
  }

  /** finalizeFromIpn */
  function FinalizeLink(link: Link, success: bool, paymentId: Option<string>): Link {
    if link.status != LinkPending then link
    else Link(if success then LinkPaid else LinkFailed, paymentId)
  }

  function OrderNotice(g: Gateway, o: OrderId, success: bool, paymentId: Option<string>): Gateway
    requires o < |g.db.orders|
  {
    if g.db.orders[o].status == Unpaid && success then
      g.(db := OrderIpn(g.db, o, true), payments := g.payments[o := paymentId], submissions := g.submissions + [o])
    else g.(db := OrderIpn(g.db, o, success))
  }

  /** handleIpn */
  function HandleIpn(hash: string -> string, g: Gateway, query: seq<Param>): Answer {
    var reference := ValueOf(query, REFERENCE);
    var success := PaymentSuccess(query);
    var paymentId := ValueOf(query, TRANSACTION_NO);
    if !VerifyIpn(hash, query) then Answer(g, "97")
    else if reference.None? || reference.value == "" then Answer(g, "01")
    else
      var ref := reference.value;
      if StartsWith(ref, TOPUP_PREFIX) then
        if ref !in g.topups then Answer(g, "01")
        else Answer(g.(topups := g.topups[ref := OnNotice(g.topups[ref], success, paymentId)]), "00")
      else if StartsWith(ref, LINK_PREFIX) then
        if ref !in g.links then Answer(g, "01")
        else Answer(g.(links := g.links[ref := FinalizeLink(g.links[ref], success, paymentId)]), "00")
      else if ref !in g.numbers || |g.db.orders| <= g.numbers[ref] then Answer(g, "01")
      else Answer(OrderNotice(g, g.numbers[ref], success, paymentId), "00")
  }

  // ----- everything that can happen -----

  datatype Event =
    | Ipn(query: seq<Param>)
    | Shop(step: Step)
    | NumberOrder(number: string, order: OrderId)
    | OpenTopup(number: string, topup: Topup)
    | TopupStep(number: string, event: TopupEvent)
    | OpenLink(number: string)

  predicate WasPaid(order: Order) {
    order.status == Paid || order.status == Refunded
  }

  /** The order that a step places with submitOrder. */
  ghost function PlacedDirectly(db: Db, step: Step): set<OrderId> {
    if step.PlaceDirect? && PlaceOrder(db, step.user, step.req).Placed? then {|db.orders|} else {}
  }

  /** The order that a step gives a payment URL: a checkout that leaves something to pay. */
  ghost function GivenUrl(db: Db, step: Step): set<OrderId> {
    if step.PlaceCheckout? then
      var placed := PlaceOrder(db, step.user, step.req);
      if placed.Placed? && 0 < placed.db.orders[placed.id].payable then {placed.id} else {}
    else {}
  }

  /** A checkout or manual order that is paid at once is sent to the providers at once; submitOrder sends its order
      without waiting for a payment. */
  ghost function ShopStep(g: Gateway, step: Step): Gateway {
    var after := Apply(g.db, step);
    var id := |g.db.orders|;
    var direct := PlacedDirectly(g.db, step);
    var sent := if id in direct || (id < |after.orders| && WasPaid(after.orders[id])) then [id] else [];
    g.(db := after, submissions := g.submissions + sent, direct := g.direct + direct,
       urls := g.urls + GivenUrl(g.db, step))
  }

  ghost function Happen(hash: string -> string, g: Gateway, e: Event): Gateway {
    match e
    case Ipn(query) => HandleIpn(hash, g, query).gateway
    case Shop(step) => if step.PaymentNotice? then g else ShopStep(g, step)
    case NumberOrder(number, o) =>
      if number in g.numbers || |g.db.orders| <= o then g else g.(numbers := g.numbers[number := o])
    case OpenTopup(number, t) =>
      if number in g.topups || !Fresh(t) then g else g.(topups := g.topups[number := t])
    case TopupStep(number, event) =>
      if number !in g.topups || event.Notice? then g
      else g.(topups := g.topups[number := OnEvent(g.topups[number], event)])
    case OpenLink(number) =>
      if number in g.links then g else g.(links := g.links[number := Link(LinkPending, None)])
  }

  ghost function HappenAll(hash: string -> string, g: Gateway, events: seq<Event>): Gateway {
    if |events| == 0 then g
    else Happen(hash, HappenAll(hash, g, events[..|events| - 1]), events[|events| - 1])
  }

  function EmptyGateway(start: Millis): Gateway {
    Gateway(EmptyDb(start), map[], map[], [], {}, {}, map[], map[])
  }

  // ----- what every event keeps -----

  function Times(submissions: seq<OrderId>, o: OrderId): nat {
    multiset(submissions)[o]
  }

  /** How often an order ought to have been sent: once if submitOrder placed it, and once if it was ever paid. */
  function TimesDue(g: Gateway, o: OrderId): nat {
    (if o in g.direct then 1 else 0) + (if o < |g.db.orders| && WasPaid(g.db.orders[o]) then 1 else 0)
  }

  ghost predicate SentAsDue(g: Gateway) {
    forall o: OrderId :: Times(g.submissions, o) == TimesDue(g, o)
  }

  ghost predicate GatewayOk(g: Gateway) {
    && Inv(g.db)
    && SentAsDue(g)
    && (forall o :: o in g.direct ==> o < |g.db.orders|)
    && (forall number :: number in g.numbers ==> g.numbers[number] < |g.db.orders|)
    && (forall number :: number in g.topups ==> TopupOk(g.topups[number]))
  }

  lemma BenefitsOrders(db: Db, o: OrderId)
    requires o < |db.orders|
    ensures var after := CompleteBenefits(db, o);
            |after.orders| == |db.orders| && forall p :: 0 <= p < |db.orders| ==>
              after.orders[p].status == db.orders[p].status
  {
    hide Post;
  }

  lemma RefundOrders(db: Db, o: OrderId, amount: int, mode: RefundMode)
    requires o < |db.orders| && RefundOrder(db, o, amount, mode).Ok?
    ensures var after := RefundOrder(db, o, amount, mode).value;
            && |after.orders| == |db.orders| && WasPaid(db.orders[o]) && after.orders[o].status == Refunded
            && forall p :: 0 <= p < |db.orders| && p != o ==> after.orders[p].status == db.orders[p].status
  {
    hide Post, ExuShare, ReverseCashback, ReverseReferral;
    RefundStages(db.(refunds := db.refunds + [Refund(|db.refunds|, o, amount, mode)]), o);
  }

  lemma RefundStages(db: Db, o: OrderId)
    requires o < |db.orders|
    ensures var after := ReverseReferral(ReverseCashback(db, o), o);
            |after.orders| == |db.orders| && forall p :: 0 <= p < |db.orders| ==>
              after.orders[p].status == db.orders[p].status
  {
    hide Post;
  }

  lemma {:induction false} ExpireOrders(db: Db, users: seq<UserId>, rows: map<UserId, Wallet>)
    requires forall i :: 0 <= i < |users| ==> users[i] in rows
    ensures ExpireRows(db, users, rows).orders == db.orders
    decreases |users|
  {
    if |users| > 0 {
      ExpireOrders(ExpireRow(db, users[0], rows[users[0]]), users[1..], rows);
    }
  }

  lemma PlaceOrders(db: Db, user: UserId, req: CheckoutRequest)
    ensures var placed := PlaceOrder(db, user, req);
            && db.orders <= placed.db.orders
            && (|placed.db.orders| == |db.orders|
                || (|placed.db.orders| == |db.orders| + 1 && placed.db.orders[|db.orders|].status == Unpaid))
  {
    hide ReferralFor, ActiveHolds;
  }

  /** Nothing but a payment notice turns an existing order into a paid one; at most one order is new. */
  lemma OthersDoNotPay(db: Db, step: Step)
    requires !step.PaymentNotice?
    ensures var after := Apply(db, step);
            && |db.orders| <= |after.orders| <= |db.orders| + 1
            && forall o: OrderId :: o < |db.orders| ==> (WasPaid(after.orders[o]) <==> WasPaid(db.orders[o]))
  {
    hide PlaceOrder, CompleteBenefits, RefundOrder, ListsExpired, ExpireRows, Post, Rollback;
    match step
    case PlaceCheckout(user, req) => PlacementPays(db, user, req);
    case PlaceDirect(user, req) => PlacementPays(db, user, req);
    case PlaceManual(user, subtotal) => PlacementPays(db, user, CheckoutRequest(subtotal, None, None, 0));
    case RefundPaid(o, amount, mode) =>
      if o < |db.orders| && RefundOrder(db, o, amount, mode).Ok? {
        RefundOrders(db, o, amount, mode);
      }
    case ExpireBalances(users) =>
      if ListsExpired(db, users) {
        ListedRows(db, users);
        ExpireOrders(db, users, db.wallets);
      }
    case CancelOrder(o, buyer) =>
      if o < |db.orders| {
        RollbackOrders(MarkFailed(db, o), o);
      }
    case _ =>
  }

  lemma RollbackOrders(db: Db, o: OrderId)
    ensures Rollback(db, o).orders == db.orders
  {
  }

  lemma PlacementPays(db: Db, user: UserId, req: CheckoutRequest)
    ensures var placed := PlaceOrder(db, user, req);
            && |db.orders| <= |placed.db.orders| <= |db.orders| + 1
            && (forall o: OrderId :: o < |db.orders| ==> placed.db.orders[o] == db.orders[o])
            && (placed.Placed? ==>
                  var paid := Finalize(placed.db, placed.id);
                  |paid.orders| == |db.orders| + 1
                  && forall o: OrderId :: o < |db.orders| ==> paid.orders[o].status == db.orders[o].status)
  {
    PlaceOrders(db, user, req);
    hide CompleteBenefits, PlaceOrder;
    var placed := PlaceOrder(db, user, req);
    if placed.Placed? {
      var marked := placed.db.(orders := placed.db.orders[placed.id := placed.db.orders[placed.id].(status := Paid)]);
      BenefitsOrders(marked, placed.id);
    }
  }

  lemma NoticePays(db: Db, o: OrderId, success: bool)
    requires o < |db.orders|
    ensures var after := OrderIpn(db, o, success);
            && |after.orders| == |db.orders|
            && (WasPaid(after.orders[o]) <==> WasPaid(db.orders[o]) || (db.orders[o].status == Unpaid && success))
            && (after.orders[o].status != Unpaid)
            && forall p :: 0 <= p < |db.orders| && p != o ==> after.orders[p].status == db.orders[p].status
  {
    if db.orders[o].status == Unpaid {
      BenefitsOrders(db.(orders := db.orders[o := db.orders[o].(status := Paid)]), o);
      RollbackOrders(MarkFailed(db, o), o);
    }
    hide CompleteBenefits, Rollback;
  }

  /** One more order sent, one more order due. */
  lemma SentMore(g: Gateway, after: Gateway, o: OrderId)
    requires SentAsDue(g) && after.submissions == g.submissions + [o]
    requires forall p: OrderId :: TimesDue(after, p) == TimesDue(g, p) + if p == o then 1 else 0
    ensures SentAsDue(after)
  {
    assert multiset(after.submissions) == multiset(g.submissions) + multiset{o};
    forall p: OrderId ensures Times(after.submissions, p) == TimesDue(after, p) {
      assert Times(g.submissions, p) == TimesDue(g, p);
    }
  }

  lemma SentSame(g: Gateway, after: Gateway)
    requires SentAsDue(g) && after.submissions == g.submissions
    requires forall p: OrderId :: TimesDue(after, p) == TimesDue(g, p)
    ensures SentAsDue(after)
  {
    forall p: OrderId ensures Times(after.submissions, p) == TimesDue(after, p) {
      assert Times(g.submissions, p) == TimesDue(g, p);
    }
  }

  /** A notice makes its own order due once more if it pays it, and no other order. */
  lemma OrderNoticeDue(g: Gateway, o: OrderId, success: bool, paymentId: Option<string>, p: OrderId)
    requires o < |g.db.orders|
    ensures TimesDue(OrderNotice(g, o, success, paymentId), p)
         == TimesDue(g, p) + if p == o && g.db.orders[o].status == Unpaid && success then 1 else 0
  {
    NoticePays(g.db, o, success);
    hide OrderIpn;
  }

  lemma OrderNoticeSends(g: Gateway, o: OrderId, success: bool, paymentId: Option<string>)
    requires SentAsDue(g) && o < |g.db.orders|
    ensures SentAsDue(OrderNotice(g, o, success, paymentId))
    ensures |OrderNotice(g, o, success, paymentId).db.orders| == |g.db.orders|
  {
    NoticePays(g.db, o, success);
    hide OrderIpn, SentAsDue, TimesDue;
    var after := OrderNotice(g, o, success, paymentId);
    forall p: OrderId
      ensures TimesDue(after, p) == TimesDue(g, p) + if p == o && g.db.orders[o].status == Unpaid && success then 1
              else 0
    {
      OrderNoticeDue(g, o, success, paymentId, p);
    }
    if g.db.orders[o].status == Unpaid && success {
      SentMore(g, after, o);
    } else {
      SentSame(g, after);
    }
  }

  lemma OrderNoticeKeeps(g: Gateway, o: OrderId, success: bool, paymentId: Option<string>)
    requires GatewayOk(g) && o < |g.db.orders|
    ensures GatewayOk(OrderNotice(g, o, success, paymentId))
  {
    OrderIpnKeeps(g.db, o, success);
    OrderNoticeSends(g, o, success, paymentId);
    hide Inv, OrderIpn, SentAsDue, TopupOk;
  }

  /** What submitOrder places is one new order, not yet paid. */
  lemma DirectIsNew(db: Db, step: Step)
    requires !step.PaymentNotice?
    ensures var after := Apply(db, step);
            |db.orders| in PlacedDirectly(db, step) ==>
              |db.orders| < |after.orders| && !WasPaid(after.orders[|db.orders|])
    ensures PlacedDirectly(db, step) <= {|db.orders|}
  {
    if step.PlaceDirect? {
      PlaceOrders(db, step.user, step.req);
    }
    hide PlaceOrder;
  }

  predicate NewDue(g: Gateway, after: Gateway) {
    var id := |g.db.orders|;
    id in after.direct || (id < |after.db.orders| && WasPaid(after.db.orders[id]))
  }

  lemma ShopStepDue(g: Gateway, step: Step, p: OrderId)
    requires GatewayOk(g) && !step.PaymentNotice?
    ensures var after := ShopStep(g, step);
            && TimesDue(after, p) == TimesDue(g, p) + (if p == |g.db.orders| && NewDue(g, after) then 1 else 0)
            && after.submissions == (if NewDue(g, after) then g.submissions + [|g.db.orders|] else g.submissions)
  {
    OthersDoNotPay(g.db, step);
    DirectIsNew(g.db, step);
    hide Inv, Apply, SentAsDue, TopupOk, WasPaid, PlacedDirectly;
    var after := ShopStep(g, step);
    assert after.db == Apply(g.db, step) && after.direct == g.direct + PlacedDirectly(g.db, step);
    assert g.submissions + [] == g.submissions;
  }

  lemma ShopStepSends(g: Gateway, step: Step)
    requires GatewayOk(g) && !step.PaymentNotice?
    ensures SentAsDue(ShopStep(g, step))
  {
    var after := ShopStep(g, step);
    var id := |g.db.orders|;
    ShopStepDue(g, step, id);
    forall p: OrderId ensures TimesDue(after, p) == TimesDue(g, p) + if p == id && NewDue(g, after) then 1 else 0 {
      ShopStepDue(g, step, p);
    }
    hide Inv, ShopStep, SentAsDue, TimesDue, NewDue, TopupOk;
    if NewDue(g, after) {
      SentMore(g, after, id);
    } else {
      SentSame(g, after);
    }
  }

  lemma ShopStepKeeps(g: Gateway, step: Step)
    requires GatewayOk(g) && !step.PaymentNotice?
    ensures GatewayOk(ShopStep(g, step))
  {
    StepKeeps(g.db, step);
    OthersDoNotPay(g.db, step);
    DirectIsNew(g.db, step);
    ShopStepSends(g, step);
    hide Inv, Apply, SentAsDue, TopupOk, WasPaid, PlacedDirectly;
  }

  lemma EventKeepsGateway(hash: string -> string, g: Gateway, e: Event)
    requires GatewayOk(g)
    ensures GatewayOk(Happen(hash, g, e))
  {
    hide Inv, VerifyIpn, StartsWith, ValueOf, TopupOk, OnEvent, OnNotice, OrderNotice, ShopStep, SentAsDue;
    match e
    case Ipn(query) =>
      var ref := ValueOf(query, REFERENCE);
      if ref.Some? {
        if ref.value in g.numbers {
          OrderNoticeKeeps(g, g.numbers[ref.value], PaymentSuccess(query), ValueOf(query, TRANSACTION_NO));
        }
        if ref.value in g.topups {
          NoticeKeepsTopup(g.topups[ref.value], PaymentSuccess(query), ValueOf(query, TRANSACTION_NO));
        }
      }
      SameSent(g, HandleIpn(hash, g, query).gateway);
    case Shop(step) =>
      if !step.PaymentNotice? {
        ShopStepKeeps(g, step);
      }
    case OpenTopup(number, t) =>
      FreshIsOk(t);
      SameSent(g, Happen(hash, g, e));
    case TopupStep(number, event) =>
      if number in g.topups {
        EventKeeps(g.topups[number], event);
      }
      SameSent(g, Happen(hash, g, e));
    case _ => SameSent(g, Happen(hash, g, e));
  }

  lemma SameSent(g: Gateway, after: Gateway)
    ensures SentAsDue(g) && after.db == g.db && after.submissions == g.submissions && after.direct == g.direct ==>
            SentAsDue(after)
  {
  }

  lemma FreshIsOk(t: Topup)
    ensures Fresh(t) ==> TopupOk(t)
  {
  }

  lemma NoticeKeepsTopup(t: Topup, success: bool, paymentId: Option<string>)
    requires TopupOk(t)
    ensures TopupOk(OnNotice(t, success, paymentId))
  {
    EventKeeps(t, Notice(success, paymentId));
  }

  lemma {:induction false} EventsKeepGateway(hash: string -> string, g: Gateway, events: seq<Event>)
    requires GatewayOk(g)
    ensures GatewayOk(HappenAll(hash, g, events))
  {
    if |events| > 0 {
      EventsKeepGateway(hash, g, events[..|events| - 1]);
      EventKeepsGateway(hash, HappenAll(hash, g, events[..|events| - 1]), events[|events| - 1]);
    }
  }

  lemma EmptyGatewayOk(start: Millis)
    ensures GatewayOk(EmptyGateway(start))
  {
    RunKeeps(EmptyDb(start), []);
    assert Run(EmptyDb(start), []) == EmptyDb(start);
  }

  /** Over every run: an order is sent to the providers once if submitOrder placed it and once if it was ever paid,
      however often it is notified, cancelled or refunded; so twice exactly if both. */
  lemma {:induction false} SubmissionsPerOrder(hash: string -> string, start: Millis, events: seq<Event>, o: OrderId)
    ensures var g := HappenAll(hash, EmptyGateway(start), events);
            var paid := o < |g.db.orders| && WasPaid(g.db.orders[o]);
            && multiset(g.submissions)[o] == (if o in g.direct then 1 else 0) + (if paid then 1 else 0)
            && (multiset(g.submissions)[o] == 2 <==> o in g.direct && paid)
  {
    EmptyGatewayOk(start);
    EventsKeepGateway(hash, EmptyGateway(start), events);
    hide Inv, HappenAll;
    var g := HappenAll(hash, EmptyGateway(start), events);
    assert Times(g.submissions, o) == multiset(g.submissions)[o] == TimesDue(g, o);
  }

  /** The order whose number a query carries, if it is an order's. */
  function OrderOf(g: Gateway, query: seq<Param>): Option<OrderId> {
    var reference := ValueOf(query, REFERENCE);
    if reference.None? || reference.value == "" then None
    else if StartsWith(reference.value, TOPUP_PREFIX) || StartsWith(reference.value, LINK_PREFIX) then None
    else if reference.value in g.numbers then Some(g.numbers[reference.value]) else None
  }

  lemma NoticeOnOrder(hash: string -> string, g: Gateway, query: seq<Param>)
    requires VerifyIpn(hash, query) && OrderOf(g, query).Some? && OrderOf(g, query).value < |g.db.orders|
    ensures HandleIpn(hash, g, query).gateway
         == OrderNotice(g, OrderOf(g, query).value, PaymentSuccess(query), ValueOf(query, TRANSACTION_NO))
  {
    hide VerifyIpn, StartsWith, ValueOf, PaymentSuccess, OrderNotice;
  }

  /** Whenever a signed notice pays a directly placed order, it goes to the providers a second time. */
  lemma PaidDirectOrderSentAgain(hash: string -> string, g: Gateway, query: seq<Param>, o: OrderId)
    requires GatewayOk(g) && o in g.direct && g.db.orders[o].status == Unpaid
    requires VerifyIpn(hash, query) && OrderOf(g, query) == Some(o) && PaymentSuccess(query)
    ensures multiset(g.submissions)[o] == 1
    ensures multiset(HandleIpn(hash, g, query).gateway.submissions)[o] == 2
  {
    NoticeOnOrder(hash, g, query);
    var paymentId := ValueOf(query, TRANSACTION_NO);
    OrderNoticeKeeps(g, o, true, paymentId);
    OrderNoticeDue(g, o, true, paymentId, o);
    hide Inv, OrderIpn, VerifyIpn, OrderOf, HandleIpn, PaymentSuccess, ValueOf;
    var after := OrderNotice(g, o, true, paymentId);
    assert Times(g.submissions, o) == TimesDue(g, o);
    assert Times(after.submissions, o) == TimesDue(after, o);
  }

  // ----- notices only for the URLs that were given -----

  /** The payment service signs notices only on orders whose payment URL the shop has given out. */
  ghost predicate Solicited(hash: string -> string, g: Gateway, e: Event) {
    e.Ipn? && VerifyIpn(hash, e.query) && OrderOf(g, e.query).Some? ==> OrderOf(g, e.query).value in g.urls
  }

  ghost predicate AllSolicited(hash: string -> string, g: Gateway, events: seq<Event>) {
    forall i :: 0 <= i < |events| ==> Solicited(hash, HappenAll(hash, g, events[..i]), events[i])
  }

  /** Directly placed orders have no payment URL and are not paid. */
  ghost predicate DirectUnpaid(g: Gateway) {
    && (forall o :: o in g.direct ==> o < |g.db.orders| && o !in g.urls && !WasPaid(g.db.orders[o]))
    && (forall o :: o in g.urls ==> o < |g.db.orders|)
  }

  lemma GivenUrlIsNew(db: Db, step: Step)
    ensures GivenUrl(db, step) <= {|db.orders|}
    ensures GivenUrl(db, step) == {} || PlacedDirectly(db, step) == {}
    ensures |db.orders| in GivenUrl(db, step) ==> |db.orders| < |Apply(db, step).orders|
  {
    if step.PlaceCheckout? {
      PlacementPays(db, step.user, step.req);
    }
    hide PlaceOrder, Finalize;
  }

  lemma ShopStepKeepsDirect(g: Gateway, step: Step)
    requires DirectUnpaid(g) && !step.PaymentNotice?
    ensures DirectUnpaid(ShopStep(g, step))
  {
    OthersDoNotPay(g.db, step);
    DirectIsNew(g.db, step);
    GivenUrlIsNew(g.db, step);
    hide Apply, WasPaid, PlacedDirectly, GivenUrl;
  }

  lemma NoticeKeepsDirect(hash: string -> string, g: Gateway, query: seq<Param>)
    requires DirectUnpaid(g) && Solicited(hash, g, Ipn(query))
    ensures DirectUnpaid(HandleIpn(hash, g, query).gateway)
  {
    var o := OrderOf(g, query);
    if VerifyIpn(hash, query) && o.Some? && o.value < |g.db.orders| {
      NoticeOnOrder(hash, g, query);
      NoticePays(g.db, o.value, PaymentSuccess(query));
      hide OrderIpn, HandleIpn, VerifyIpn, OrderOf;
    } else {
      hide StartsWith, ValueOf, VerifyIpn, OrderNotice;
    }
  }

  lemma {:induction false} EventsKeepDirect(hash: string -> string, g: Gateway, events: seq<Event>)
    requires DirectUnpaid(g) && AllSolicited(hash, g, events)
    ensures DirectUnpaid(HappenAll(hash, g, events))
  {
    if |events| > 0 {
      var last := |events| - 1;
      assert forall i :: 0 <= i < last ==> events[..last][..i] == events[..i];
      EventsKeepDirect(hash, g, events[..last]);
      var before := HappenAll(hash, g, events[..last]);
      assert Solicited(hash, before, events[last]);
      EventKeepsDirect(hash, before, events[last]);
    }
  }

  lemma EventKeepsDirect(hash: string -> string, g: Gateway, e: Event)
    requires DirectUnpaid(g) && Solicited(hash, g, e)
    ensures DirectUnpaid(Happen(hash, g, e))
  {
    hide Solicited, HandleIpn, ShopStep, Fresh, OnEvent;
    match e
    case Ipn(query) => NoticeKeepsDirect(hash, g, query);
    case Shop(step) =>
      if !step.PaymentNotice? {
        ShopStepKeepsDirect(g, step);
      }
    case _ =>
  }

  /** Over every run in which signed notices come only on orders that were given a payment URL, an order placed by
      submitOrder stays unpaid and is sent exactly once. */
  lemma {:induction false} DirectOrderSentOnce(hash: string -> string, start: Millis, events: seq<Event>, o: OrderId)
    requires AllSolicited(hash, EmptyGateway(start), events)
    requires o in HappenAll(hash, EmptyGateway(start), events).direct
    ensures var g := HappenAll(hash, EmptyGateway(start), events);
            o < |g.db.orders| && !WasPaid(g.db.orders[o]) && multiset(g.submissions)[o] == 1
  {
    EventsKeepDirect(hash, EmptyGateway(start), events);
    SubmissionsPerOrder(hash, start, events, o);
    hide HappenAll, AllSolicited, WasPaid;
  }

  // ----- the first valid notice wins -----

  /** The reference is known and no longer waits for its payment. */
  predicate Decided(g: Gateway, ref: string) {
    if StartsWith(ref, TOPUP_PREFIX) then ref in g.topups && g.topups[ref].status != TopupPending
    else if StartsWith(ref, LINK_PREFIX) then ref in g.links && g.links[ref].status != LinkPending
    else ref in g.numbers && g.numbers[ref] < |g.db.orders| && g.db.orders[g.numbers[ref]].status != Unpaid
  }

  predicate Refers(query: seq<Param>, ref: string) {
    ValueOf(query, REFERENCE) == Some(ref)
  }

  /** A notice answered 00 decides its reference, whether it reports success or failure. */
  lemma NoticeDecides(hash: string -> string, g: Gateway, query: seq<Param>, ref: string)
    requires Refers(query, ref) && HandleIpn(hash, g, query).code == "00"
    ensures Decided(HandleIpn(hash, g, query).gateway, ref)
  {
    hide VerifyIpn, StartsWith, ValueOf, OrderIpn;
    if ref in g.numbers && g.numbers[ref] < |g.db.orders| {
      NoticePays(g.db, g.numbers[ref], PaymentSuccess(query));
    }
  }

  /** On a decided reference every notice, valid or not, changes nothing. */
  lemma DecidedIgnoresNotices(hash: string -> string, g: Gateway, query: seq<Param>, ref: string)
    requires Refers(query, ref) && Decided(g, ref)
    ensures HandleIpn(hash, g, query).gateway == g
  {
    hide VerifyIpn, StartsWith, ValueOf;
  }

  lemma OrderStaysDecided(db: Db, step: Step, o: OrderId)
    requires Inv(db) && o < |db.orders| && db.orders[o].status != Unpaid
    ensures o < |Apply(db, step).orders| && Apply(db, step).orders[o].status != Unpaid
  {
    StepForward(db, step);
    hide Inv, Apply;
    assert ViewForward(ViewAt(db, o), ViewAt(Apply(db, step), o));
  }

  lemma NoticeLeavesDecided(hash: string -> string, g: Gateway, query: seq<Param>, ref: string)
    requires Decided(g, ref)
    ensures Decided(HandleIpn(hash, g, query).gateway, ref)
  {
    hide VerifyIpn, StartsWith, ValueOf, PaymentSuccess, OrderIpn;
    var other := ValueOf(query, REFERENCE);
    if other.Some? && other.value in g.numbers && g.numbers[other.value] < |g.db.orders| {
      NoticePays(g.db, g.numbers[other.value], PaymentSuccess(query));
    }
  }

  lemma DecidedStays(hash: string -> string, g: Gateway, e: Event, ref: string)
    requires GatewayOk(g) && Decided(g, ref)
    ensures Decided(Happen(hash, g, e), ref)
  {
    hide Inv, HandleIpn, StartsWith, Apply, TopupOk, SentAsDue, OnEvent, Fresh;
    match e
    case Ipn(query) => NoticeLeavesDecided(hash, g, query, ref);
    case Shop(step) =>
      if ref in g.numbers && g.numbers[ref] < |g.db.orders| && g.db.orders[g.numbers[ref]].status != Unpaid {
        OrderStaysDecided(g.db, step, g.numbers[ref]);
      }
    case TopupStep(number, event) =>
      if number in g.topups {
        EventKeeps(g.topups[number], event);
      }
    case _ =>
  }

  lemma {:induction false} DecidedFrom(hash: string -> string, g: Gateway, events: seq<Event>, i: nat, j: nat,
                                       ref: string)
    requires GatewayOk(g) && i <= j <= |events| && Decided(HappenAll(hash, g, events[..i]), ref)
    ensures Decided(HappenAll(hash, g, events[..j]), ref)
    decreases j
  {
    hide Inv, Decided, Happen, GatewayOk;
    if i < j {
      DecidedFrom(hash, g, events, i, j - 1, ref);
      EventsKeepGateway(hash, g, events[..j - 1]);
      DecidedStays(hash, HappenAll(hash, g, events[..j - 1]), events[j - 1], ref);
      assert events[..j][..j - 1] == events[..j - 1];
    }
  }

  /** Over every run of notices, shop steps, topup jobs and refunds: once a notice on a reference was answered 00, every
      later notice on it, valid or not, leaves the whole state as it finds it. */
  lemma {:induction false} FirstValidNoticeWins(hash: string -> string, start: Millis, events: seq<Event>, i: nat,
                                                j: nat, ref: string)
    requires i < j < |events| && events[i].Ipn? && events[j].Ipn? && Refers(events[i].query, ref)
             && Refers(events[j].query, ref)
    requires HandleIpn(hash, HappenAll(hash, EmptyGateway(start), events[..i]), events[i].query).code == "00"
    ensures HappenAll(hash, EmptyGateway(start), events[..j + 1]) == HappenAll(hash, EmptyGateway(start), events[..j])
  {
    var g := EmptyGateway(start);
    EmptyGatewayOk(start);
    NoticeDecides(hash, HappenAll(hash, g, events[..i]), events[i].query, ref);
    assert events[..i + 1][..i] == events[..i] && events[..j + 1][..j] == events[..j];
    hide GatewayOk, HandleIpn, Decided;
    DecidedFrom(hash, g, events, i + 1, j, ref);
    DecidedIgnoresNotices(hash, HappenAll(hash, g, events[..j]), events[j].query, ref);
  }

  // ----- any sequence of notices is its first valid one -----

  function Notices(hash: string -> string, g: Gateway, queries: seq<seq<Param>>): Gateway
    decreases |queries|
  {
    if |queries| == 0 then g else Notices(hash, HandleIpn(hash, g, queries[0]).gateway, queries[1..])
  }

  /** The first notice with a valid signature, or the number of notices if there is none. */
  function FirstValid(hash: string -> string, queries: seq<seq<Param>>): (i: nat)
    ensures i <= |queries| && forall j :: 0 <= j < i ==> !VerifyIpn(hash, queries[j])
    ensures i < |queries| ==> VerifyIpn(hash, queries[i])
    decreases |queries|
  {
    if |queries| == 0 || VerifyIpn(hash, queries[0]) then 0 else 1 + FirstValid(hash, queries[1..])
  }

  /** The reference is waiting for nothing: decided, or unknown. */
  predicate Deaf(g: Gateway, ref: string) {
    || Decided(g, ref)
    || (if StartsWith(ref, TOPUP_PREFIX) then ref !in g.topups
        else if StartsWith(ref, LINK_PREFIX) then ref !in g.links
        else ref !in g.numbers || |g.db.orders| <= g.numbers[ref])
  }

  lemma {:induction false} DeafIgnoresAll(hash: string -> string, g: Gateway, queries: seq<seq<Param>>, ref: string)
    requires Deaf(g, ref) && forall i :: 0 <= i < |queries| ==> Refers(queries[i], ref)
    ensures Notices(hash, g, queries) == g
    decreases |queries|
  {
    hide VerifyIpn, StartsWith, ValueOf;
    if |queries| > 0 {
      if Decided(g, ref) {
        DecidedIgnoresNotices(hash, g, queries[0], ref);
      }
      DeafIgnoresAll(hash, g, queries[1..], ref);
    }
  }

  /** Any sequence of notices on one reference does exactly what its first valid one alone does. */
  lemma {:induction false} OnlyFirstValidCounts(hash: string -> string, g: Gateway, queries: seq<seq<Param>>,
                                                ref: string)
    requires ref != "" && forall i :: 0 <= i < |queries| ==> Refers(queries[i], ref)
    ensures var i := FirstValid(hash, queries);
            Notices(hash, g, queries) == if i < |queries| then HandleIpn(hash, g, queries[i]).gateway else g
    decreases |queries|
  {
    if |queries| > 0 {
      if VerifyIpn(hash, queries[0]) {
        FirstMakesDeaf(hash, g, queries[0], ref);
        DeafIgnoresAll(hash, HandleIpn(hash, g, queries[0]).gateway, queries[1..], ref);
      } else {
        OnlyFirstValidCounts(hash, g, queries[1..], ref);
      }
      hide VerifyIpn;
    }
  }

  lemma FirstMakesDeaf(hash: string -> string, g: Gateway, query: seq<Param>, ref: string)
    requires ref != "" && Refers(query, ref) && VerifyIpn(hash, query)
    ensures Deaf(HandleIpn(hash, g, query).gateway, ref)
  {
    if HandleIpn(hash, g, query).code == "00" {
      NoticeDecides(hash, g, query, ref);
    }
    hide VerifyIpn, StartsWith, ValueOf, OrderNotice;
  }
}
