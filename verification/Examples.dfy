/** Runs that show where the shop does not do what one might expect of it. */
module Examples {
  import opened Domain
  import opened Ledger
  import opened Wallets
  import opened Orders
  import opened OrderView
  import opened Statements
  import opened Invariant
  import opened Runs
  import opened RunGuarantees
  import opened OrderGuarantees
  import opened Balances
  import opened Solvency
  import opened CrashRefund
  import opened UrlQuery
  import opened OnePay
  import opened Payment
  import opened PaymentDesk
  import Rounding

  // ----- eXu that was never taken comes back -----

  /** Buyer 7 owns 100 eXu and lets an order hold them; the hold runs out and lapses before the order is paid, and then
      the whole order is refunded. */
  const LAPSED_HOLD: seq<Step> := [
    AdjustBalance(7, 100), PlaceCheckout(7, EAGER), Tick(HOLD_LIFETIME + 1), LapseHolds,
    PaymentNotice(0, true), RefundPaid(0, 200, DirectBank)]

  /** After the hold lapsed. */
  function HeldInVain(): Db {
    CreditedBuyer().(now := HOLD_LIFETIME + 1, orders := [EagerRow(0)],
                     holds := map[0 := Hold(7, 100, Lapsed, HOLD_LIFETIME)])
  }

  lemma LapsedCheckout()
    ensures Apply(Apply(Apply(Apply(EmptyDb(0), AdjustBalance(7, 100)), PlaceCheckout(7, EAGER)),
                        Tick(HOLD_LIFETIME + 1)), LapseHolds)
         == HeldInVain()
  {
    var d1 := CreditedBuyer();
    assert Apply(EmptyDb(0), AdjustBalance(7, 100)) == d1;
    EagerCheckout(d1);
    var d2 := d1.(orders := [EagerRow(0)], holds := map[0 := Hold(7, 100, Held, HOLD_LIFETIME)]);
    assert Apply(d1, PlaceCheckout(7, EAGER)) == d2 by {
      hide Orders.Checkout;
      assert d1.orders + [EagerRow(0)] == d2.orders;
    }
    var d3 := d2.(now := HOLD_LIFETIME + 1);
    assert ExpireHolds(d3).holds == HeldInVain().holds;
  }

  /** What a payment leaves of an order's row. */
  lemma PaidRow(db: Db, o: OrderId)
    requires Inv(db) && o < |db.orders| && db.orders[o].status == Unpaid
    ensures var after := Finalize(db, o);
            && Inv(after)
            && after.orders[o] == db.orders[o].(status := Paid, cashbackTx := after.orders[o].cashbackTx,
                                                cashbackReversed := false, refunded := 0)
            && (o in after.referrals ==> o in db.referrals)
  {
    BooksShapes(db);
    FinalizeKeeps(db, o);
    FinalizeView(db, o, o);
    var v := ViewAt(db, o);
    assert ViewOk(v, o);
    FinalizeStatement(v, o);
    FinalizeForward(v, o);
    UnrefundedRow(VFinalize(v, o), o);
    RowsOfView(db, o);
    RowsOfView(Finalize(db, o), o);
    hide Inv, Shapes, Finalize, VFinalize, ViewAt, ViewOk;
  }

  lemma UnrefundedRow(v: View, o: OrderId)
    requires ViewOk(v, o) && v.order.status == Paid
    ensures !v.order.cashbackReversed && v.order.refunded == 0
  {
  }

  lemma LapsedRefund(db: Db)
    requires db == Finalize(HeldInVain(), 0) && Inv(HeldInVain())
    ensures Inv(db) && |db.orders| == 1 && RefundOrder(db, 0, 200, DirectBank).Ok?
    ensures WalletOf(RefundOrder(db, 0, 200, DirectBank).value.wallets, 7).balance == 200
  {
    var d4 := HeldInVain();
    PaidRow(d4, 0);
    FinalizeBalance(d4, 0, 7);
    assert WalletOf(d4.wallets, 7).balance == 100 && PaymentEffect(d4, 0, 7) == 4 && 0 !in d4.referrals;
    assert d4.orders[0] == EagerRow(0);
    hide Inv, Finalize, HeldInVain, RefundOrder, WalletOf;
    EagerRefund(db);
    RefundBalance(db, 0, 200, DirectBank, 7);
  }

  lemma EagerRefund(db: Db)
    requires |db.orders| == 1 && db.orders[0] == EagerRow(0).(status := Paid, cashbackTx := db.orders[0].cashbackTx)
    requires 0 !in db.referrals
    ensures RefundOrder(db, 0, 200, DirectBank).Ok?
    ensures RefundEffect(db, 0, 200, DirectBank, 7) == 96
  {
    Rounding.RoundDivUnique(20000, 200, 100);
    hide ReverseCashback, ReverseReferral, ReturnToWallet;
  }

  /** Starting from 100 eXu and spending none of them, the buyer ends with 200. */
  lemma LapsedHoldPaysOut()
    ensures WalletOf(Run(EmptyDb(0), LAPSED_HOLD[..1]).wallets, 7).balance == 100
    ensures WalletOf(Run(EmptyDb(0), LAPSED_HOLD).wallets, 7).balance == 200
  {
    FirstCredit();
    LapsedRun();
    LapsedRefund(Finalize(HeldInVain(), 0));
    hide *;
  }

  lemma FirstCredit()
    ensures WalletOf(Run(EmptyDb(0), LAPSED_HOLD[..1]).wallets, 7).balance == 100
  {
    var credit := AdjustBalance(7, 100);
    RunSnoc(EmptyDb(0), [], credit);
    assert Apply(EmptyDb(0), credit) == CreditedBuyer();
    assert LAPSED_HOLD[..1] == [] + [credit];
    hide Apply;
    assert Run(EmptyDb(0), []) == EmptyDb(0);
    hide Run;
  }

  lemma LapsedRun()
    ensures Inv(HeldInVain())
    ensures Run(EmptyDb(0), LAPSED_HOLD)
         == var paid := Finalize(HeldInVain(), 0);
            if RefundOrder(paid, 0, 200, DirectBank).Ok? then RefundOrder(paid, 0, 200, DirectBank).value else paid
  {
    RunInvariant(0, LAPSED_HOLD[..4]);
    RunOfFour(EmptyDb(0), LAPSED_HOLD);
    LapsedCheckout();
    assert |HeldInVain().orders| == 1 && HeldInVain().orders[0].status == Unpaid;
    hide *;
    NoticeApplies(HeldInVain(), 0);
    UnpaidNotice(HeldInVain(), 0);
    RefundApplies(Finalize(HeldInVain(), 0), 0, 200, DirectBank);
  }

  lemma UnpaidNotice(db: Db, o: OrderId)
    requires o < |db.orders| && db.orders[o].status == Unpaid
    ensures OrderIpn(db, o, true) == Finalize(db, o)
  {
    hide Finalize;
  }

  lemma RefundApplies(db: Db, o: OrderId, amount: int, mode: RefundMode)
    requires o < |db.orders|
    ensures Apply(db, RefundPaid(o, amount, mode))
         == if RefundOrder(db, o, amount, mode).Ok? then RefundOrder(db, o, amount, mode).value else db
  {
    hide RefundOrder;
  }

  // ----- a refund between payment and its benefits -----

  lemma AfterFour()
    ensures Run(EmptyDb(0), LAPSED_HOLD[..4]) == HeldInVain() && Inv(HeldInVain())
  {
    RunInvariant(0, LAPSED_HOLD[..4]);
    RunOfFour(EmptyDb(0), LAPSED_HOLD);
    LapsedCheckout();
    hide Run, Apply, Inv, HeldInVain;
  }

  /** The order is marked paid, the handler stops before its first write, and a refund of nothing comes in: the cashback
      of 4 is taken back without having been given. */
  lemma HalfwayRefund()
    ensures var db := Run(EmptyDb(0), LAPSED_HOLD[..4]);
            && |db.orders| == 1
            && var refund := RefundOrder(StoppedAfter(db, 0, 0), 0, 0, DirectBank);
               refund.Ok? && Sum(OwnEntries(refund.value.ledger, 0), CASHBACKS) == -4
  {
    AfterFour();
    hide Run, Inv;
    var db := HeldInVain();
    assert |db.orders| == 1 && db.orders[0] == EagerRow(0);
    NothingRefunded(db);
    hide RefundOrder, StoppedAfter, HeldInVain, Sum, OwnEntries;
    RefundAfterStop(db, 0, 0, 0, DirectBank);
  }

  lemma NothingRefunded(db: Db)
    requires |db.orders| == 1 && db.orders[0] == EagerRow(0)
    ensures RefundOrder(StoppedAfter(db, 0, 0), 0, 0, DirectBank).Ok?
  {
    hide ReverseCashback, ReverseReferral, ReturnToWallet, ExuShare;
  }

  // ----- an order sent to the providers twice -----

  const PLAIN := CheckoutRequest(200, None, None, 0)

  /** A successful notice on an order number, signed with the service's hash. */
  function SignedNotice(hash: string -> string, number: string): seq<Param> {
    Notice(number) + [Param(SIGNATURE, CreateSecureHash(hash, Notice(number)))]
  }

  function Notice(number: string): seq<Param> {
    [Param(REFERENCE, number), Param(RESPONSE_CODE, "0")]
  }

  /** An order placed by submitOrder, its number, and a signed notice on it, although the shop has no payment URL for
      it. */
  function DirectThenPaid(hash: string -> string): seq<Event> {
    PLACED_DIRECTLY + [Event.Ipn(SignedNotice(hash, "ORD-1"))]
  }

  const PLACED_DIRECTLY: seq<Event> := [Event.Shop(PlaceDirect(7, PLAIN)), Event.NumberOrder("ORD-1", 0)]

  lemma NoticeVerifies(hash: string -> string, number: string)
    requires forall s :: hash(s) != ""
    ensures var query := SignedNotice(hash, number);
            VerifyIpn(hash, query) && ValueOf(query, REFERENCE) == Some(number) && PaymentSuccess(query)
  {
    var params := Notice(number);
    var signature := CreateSecureHash(hash, params);
    var query := SignedNotice(hash, number);
    SignatureNotEmpty(hash, params);
    hide CreateSecureHash;
    NoticeValues(number, signature);
    hide Notice, ValueOf, VerifyIpn, PaymentSuccess, IsObject, StartsWith;
    VerifyIff(hash, params, query);
  }

  /** The three names are distinct, so each carries its value, with the signature or without it. */
  lemma NoticeValues(number: string, signature: string)
    ensures var params := Notice(number);
            var query := params + [Param(SIGNATURE, signature)];
            && IsObject(params) && IsObject(query) && ValueOf(params, SIGNATURE).None? && Carries(query, params)
            && ValueOf(query, SIGNATURE) == Some(signature) && ValueOf(query, REFERENCE) == Some(number)
            && ValueOf(query, RESPONSE_CODE) == Some("0")
  {
    var params := Notice(number);
    var last := [Param(SIGNATURE, signature)];
    assert |REFERENCE| == 15 && |RESPONSE_CODE| == 19 && |SIGNATURE| == 14;
    assert params[1..] == [Param(RESPONSE_CODE, "0")] && params[1..][1..] == [];
    forall name ensures ValueOf(params + last, name) == if ValueOf(params, name).Some? then ValueOf(params, name)
           else ValueOf(last, name) {
      ValueConcat(params, last, name);
    }
    assert ValueOf(last[1..], SIGNATURE).None?;
  }

  lemma PlainOrder(now: Millis)
    ensures NewOrder(7, PLAIN, false, now) == Order(7, Unpaid, 200, 0, 0, 0, 200, 4, None, false, 0, now)
  {
    Rounding.RoundDivUnique(400, 100, 4);
  }

  /** What the first two events leave: one unpaid order, sent once. */
  lemma PlacedAndNumbered(hash: string -> string)
    ensures var g := HappenAll(hash, EmptyGateway(0), PLACED_DIRECTLY);
            && GatewayOk(g) && g.numbers == map["ORD-1" := 0] && g.direct == {0} && g.urls == {}
            && |g.db.orders| == 1 && g.db.orders[0].status == Unpaid
  {
    var e0, e1 := Event.Shop(PlaceDirect(7, PLAIN)), Event.NumberOrder("ORD-1", 0);
    var empty := EmptyGateway(0);
    EmptyGatewayOk(0);
    EventsKeepGateway(hash, empty, PLACED_DIRECTLY);
    assert PLACED_DIRECTLY == [e0] + [e1] && [e0] == [] + [e0];
    assert HappenAll(hash, empty, []) == empty;
    PlainPlaced(hash);
    hide *;
    HappenNext(hash, empty, [], e0);
    HappenNext(hash, empty, [e0], e1);
    Numbered(hash, Happen(hash, empty, e0));
  }

  lemma PlainPlaced(hash: string -> string)
    ensures var g := Happen(hash, EmptyGateway(0), Event.Shop(PlaceDirect(7, PLAIN)));
            && g.numbers == map[] && g.direct == {0} && g.urls == {} && |g.db.orders| == 1
            && g.db.orders[0].status == Unpaid
  {
    PlainOrder(0);
    PlacingIs(EmptyGateway(0), 7, PLAIN);
    hide NewOrder, ShopStep;
  }

  lemma Numbered(hash: string -> string, g: Gateway)
    requires g.numbers == map[] && |g.db.orders| == 1
    ensures Happen(hash, g, Event.NumberOrder("ORD-1", 0)) == g.(numbers := map["ORD-1" := 0])
  {
  }

  lemma HappenNext(hash: string -> string, g: Gateway, events: seq<Event>, e: Event)
    ensures HappenAll(hash, g, events + [e]) == Happen(hash, HappenAll(hash, g, events), e)
  {
    assert (events + [e])[..|events|] == events;
    hide Happen;
  }

  /** The order goes to the providers when it is placed and again when the notice pays it. */
  lemma DirectOrderSentTwice(hash: string -> string)
    requires forall s :: hash(s) != ""
    ensures multiset(HappenAll(hash, EmptyGateway(0), DirectThenPaid(hash)).submissions)[0] == 2
    ensures !AllSolicited(hash, EmptyGateway(0), DirectThenPaid(hash))
  {
    var query := SignedNotice(hash, "ORD-1");
    var g := HappenAll(hash, EmptyGateway(0), PLACED_DIRECTLY);
    assert DirectThenPaid(hash) == PLACED_DIRECTLY + [Event.Ipn(query)];
    hide *;
    PlacedAndNumbered(hash);
    NoticeVerifies(hash, "ORD-1");
    NoticeIsOnOrder(g, query);
    PaidDirectOrderSentAgain(hash, g, query, 0);
    Unsolicited(hash, g, query);
    NoticeHappens(hash, PLACED_DIRECTLY, query);
    NotAllSolicited(hash, EmptyGateway(0), PLACED_DIRECTLY, Event.Ipn(query));
  }

  lemma NoticeIsOnOrder(g: Gateway, query: seq<Param>)
    requires ValueOf(query, REFERENCE) == Some("ORD-1") && g.numbers == map["ORD-1" := 0]
    ensures OrderOf(g, query) == Some(0)
  {
    hide ValueOf;
    assert "ORD-1"[0] != TOPUP_PREFIX[0] && "ORD-1"[0] != LINK_PREFIX[0];
  }

  lemma Unsolicited(hash: string -> string, g: Gateway, query: seq<Param>)
    requires VerifyIpn(hash, query) && OrderOf(g, query) == Some(0) && g.urls == {}
    ensures !Solicited(hash, g, Event.Ipn(query))
  {
    hide VerifyIpn, OrderOf;
  }

  lemma NoticeHappens(hash: string -> string, events: seq<Event>, query: seq<Param>)
    ensures HappenAll(hash, EmptyGateway(0), events + [Event.Ipn(query)])
         == Payment.HandleIpn(hash, HappenAll(hash, EmptyGateway(0), events), query).gateway
  {
    HappenNext(hash, EmptyGateway(0), events, Event.Ipn(query));
    hide HappenAll, Payment.HandleIpn;
  }

  lemma NotAllSolicited(hash: string -> string, g: Gateway, events: seq<Event>, e: Event)
    requires !Solicited(hash, HappenAll(hash, g, events), e)
    ensures !AllSolicited(hash, g, events + [e])
  {
    hide Solicited, HappenAll;
    var all := events + [e];
    assert all[..|events|] == events && all[|events|] == e;
    assert !Solicited(hash, HappenAll(hash, g, all[..|events|]), all[|events|]);
  }
}
