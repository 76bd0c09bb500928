/** The order lifecycle: checkout, payment, cancellation and the expiry cron job. */
module Orders {
  import opened Domain
  import opened Ledger
  import opened Wallets
  import Pricing

  datatype CheckoutRequest = CheckoutRequest(subtotal: int, coupon: Option<int>, referralCode: Option<Code>,
                                             useWallet: int)
  datatype CheckoutError = CouponAndReferral | BadReferral(referralError: ReferralError) | BadHold(holdError: HoldError)

  /** A refusal may leave writes behind: the order row exists before the hold is attempted. */
  datatype Placement = Placed(db: Db, id: OrderId) | Refused(db: Db, error: CheckoutError)

  ghost function ReferralFor(db: Db, user: UserId, req: CheckoutRequest): Result<Option<UserId>, CheckoutError> {
    if req.coupon.Some? && req.referralCode.Some? then Err(CouponAndReferral)
    else if req.referralCode.None? then Ok(None)
    else
      var valid := ValidateReferral(db, user, req.referralCode.value, req.subtotal, req.coupon.Some?);
      if valid.Err? then Err(BadReferral(valid.error)) else Ok(Some(valid.value))
  }

  function NewOrder(user: UserId, req: CheckoutRequest, referred: bool, now: Millis): Order {
    var coupon := if req.coupon.Some? then req.coupon.value else 0;
    var referral := if referred then REFERRAL_DISCOUNT else 0;
    var split := Pricing.SplitPrice(req.subtotal, coupon, referral, req.useWallet);
    Order(user, Unpaid, req.subtotal, coupon, referral, split.wallet, split.payable, split.cashback, None, false, 0,
          now)
  }

  /** A referral discount only comes with an accepted code, which the minimum order and the absence of a coupon make
      small enough never to be clipped. */
  lemma AcceptedReferralNotClipped(db: Db, user: UserId, req: CheckoutRequest)
    requires ReferralFor(db, user, req).Ok? && ReferralFor(db, user, req).value.Some?
    ensures var order := NewOrder(user, req, true, db.now);
            order.couponDiscount == 0 && order.walletSpent + order.payable == req.subtotal - REFERRAL_DISCOUNT
  {
    Pricing.ReferralSplit(req.subtotal, req.useWallet);
  }

  /** createPendingOrder */
  ghost function PlaceOrder(db: Db, user: UserId, req: CheckoutRequest): (r: Placement)
    ensures r.Placed? ==> r.id == |db.orders| && |r.db.orders| == |db.orders| + 1
  {
    var referrer := ReferralFor(db, user, req);
    if referrer.Err? then Refused(db, referrer.error)
    else
      var id := |db.orders|;
      var order := NewOrder(user, req, referrer.value.Some?, db.now);
      var d1 := db.(orders := db.orders + [order]);
      var d2 := if referrer.value.Some? then CreateReferral(d1, id, user, referrer.value.value) else d1;
      if 0 < order.walletSpent then
        var held := CreateHold(d2, id, user, order.walletSpent);
        if held.Err? then Refused(d2, BadHold(held.error)) else Placed(held.value, id)
      else Placed(d2, id)
  }

  /** finalizePaidOrder */
  function Finalize(db: Db, o: OrderId): (r: Db)
    requires o < |db.orders|
    ensures |r.orders| == |db.orders| && db.ledger <= r.ledger
  {
    CompleteBenefits(db.(orders := db.orders[o := db.orders[o].(status := Paid)]), o)
  }

  /** createCheckout: an order the wallet covers entirely is paid at once. */
  ghost function Checkout(db: Db, user: UserId, req: CheckoutRequest): Placement {
    var placed := PlaceOrder(db, user, req);
    if placed.Placed? && placed.db.orders[placed.id].payable <= 0 then
      Placed(Finalize(placed.db, placed.id), placed.id)
    else placed
  }

  /** submitManualOrder: an admin places an order without discounts and marks it paid. */
  ghost function ManualOrder(db: Db, user: UserId, subtotal: int): Placement {
    var placed := PlaceOrder(db, user, CheckoutRequest(subtotal, None, None, 0));
    if placed.Placed? then
      Placed(Finalize(placed.db, placed.id), placed.id)
    else placed
  }

  function MarkFailed(db: Db, o: OrderId): (r: Db)
    requires o < |db.orders|
    ensures |r.orders| == |db.orders|
  {
    db.(orders := db.orders[o := db.orders[o].(status := Failed)])
  }

  /** What both failure paths do to one order once its status is FAILED. */
  function Rollback(db: Db, o: OrderId): (r: Db)
    ensures |r.orders| == |db.orders|
  {
    ReversePendingReferral(ReleaseHold(db, o), o)
  }

  datatype CancelError = NotFound | NotOwner | NotPending

  function Cancel(db: Db, o: OrderId, user: Option<UserId>): Result<Db, CancelError> {
    if |db.orders| <= o then Err(NotFound)
    else if user.Some? && db.orders[o].user != user.value then Err(NotOwner)
    else if db.orders[o].status != Unpaid then Err(NotPending)
    else Ok(Rollback(MarkFailed(db, o), o))
  }

  predicate Overdue(order: Order, now: Millis) {
    order.status == Unpaid && order.createdAt < now - PENDING_LIFETIME
  }

  function FailIfOverdue(order: Order, now: Millis): Order {
    if Overdue(order, now) then order.(status := Failed) else order
  }

  predicate OverdueAt(orders: seq<Order>, o: OrderId, now: Millis) {
    o < |orders| && Overdue(orders[o], now)
  }

  function ReleasedIfHeld(hold: Hold): Hold {
    if hold.status == Held then hold.(status := Released) else hold
  }

  function ReversedIfPending(referral: Referral): Referral {
    if referral.status == Pending then referral.(status := Reversed) else referral
  }

  /** failExpiredPendingOrders: one bulk status update, then the rollback of each order it failed. */
  function FailOverdue(db: Db): Db {
    db.(orders := seq(|db.orders|, (i: int) requires 0 <= i < |db.orders| => FailIfOverdue(db.orders[i], db.now)),
        holds := map o | o in db.holds :: if OverdueAt(db.orders, o, db.now) then ReleasedIfHeld(db.holds[o])
          else db.holds[o],
        referrals := map o | o in db.referrals ::
          if OverdueAt(db.orders, o, db.now) then ReversedIfPending(db.referrals[o]) else db.referrals[o])
  }

  /** The order branch of handleIpn, once the signature holds and the reference resolves to order o. */
  function OrderIpn(db: Db, o: OrderId, success: bool): (r: Db)
    requires o < |db.orders|
    ensures |r.orders| == |db.orders|
  {
    if db.orders[o].status != Unpaid then db
    else if !success then
      var cancelled := Cancel(db, o, None);
      if cancelled.Ok? then cancelled.value else db
    else Finalize(db, o)
  }
}
