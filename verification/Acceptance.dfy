/** What each handler accepts and what it then writes, read off the rows: when a hold, a referral code, a checkout, a
    cancellation or a refund is accepted, and which rows the cron jobs change. */
module Acceptance {
  import opened Domain
  import opened Ledger
  import opened Wallets
  import opened Orders
  import opened OrderView
  import opened Statements
  import opened Invariant
  import opened Runs
  import opened OrderGuarantees
  import opened Balances
  import Pricing

  /** A user's wallet; one that was never opened is active and empty. */
  function Row(db: Db, user: UserId): Wallet {
    if user in db.wallets then db.wallets[user] else Wallet(0, Active, None)
  }

  predicate Unexpired(wallet: Wallet, now: Millis) {
    wallet.expiresAt.Some? ==> now <= wallet.expiresAt.value
  }

  // ----- holds -----

  /** The sum of active holds starts at nothing, and a hold adds its amount exactly if it is the user's, HELD and not
      run out. */
  lemma HoldCounts(holds: map<OrderId, Hold>, o: OrderId, hold: Hold, user: UserId, now: Millis)
    requires o !in holds
    ensures ActiveHolds(map[], user, now) == 0
    ensures ActiveHolds(holds[o := hold], user, now)
         == ActiveHolds(holds, user, now)
            + if hold.user == user && hold.status == Held && now < hold.expiresAt then hold.amount else 0
  {
    ActiveHoldsUpdate(holds, o, hold, user, now);
    assert holds - {o} == holds;
  }

  lemma AvailableIs(db: Db, user: UserId)
    ensures var row, held := Row(db, user), ActiveHolds(db.holds, user, db.now);
            Available(db, user)
            == if row.status == Active && Unexpired(row, db.now) && held <= row.balance then row.balance - held else 0
  {
    hide ActiveHolds;
  }

  /** A new order's hold is accepted if and only if the wallet is active, its money has not expired, and the balance
      covers the active holds and the amount; it then lasts thirty minutes and nothing else changes but a wallet being
      begun. */
  lemma HoldAcceptedIff(db: Db, o: OrderId, user: UserId, amount: pos)
    requires o !in db.holds
    ensures var row, r := Row(db, user), CreateHold(db, o, user, amount);
            && (r.Ok? <==> row.status == Active && Unexpired(row, db.now)
                           && ActiveHolds(db.holds, user, db.now) + amount <= row.balance)
            && (r == Err(WalletLocked) <==> row.status == Locked)
            && (r.Ok? ==> r.value == db.(wallets := db.wallets[user := row],
                                         holds := db.holds[o := Hold(user, amount, Held, db.now + 30 * 60 * 1000)]))
  {
    hide ActiveHolds;
  }

  lemma NoNewHold(db: Db, o: OrderId, user: UserId, amount: int)
    ensures amount <= 0 || o in db.holds ==> CreateHold(db, o, user, amount) == Ok(db)
  {
  }

  /** The hold cron job: exactly the HELD holds that have run out lapse. */
  lemma HoldsLapseExactly(db: Db, o: OrderId)
    ensures var after := ExpireHolds(db);
            && after == db.(holds := after.holds)
            && (o in after.holds <==> o in db.holds)
            && (o in db.holds ==>
                  after.holds[o] == if db.holds[o].status == Held && db.holds[o].expiresAt < db.now
                                    then db.holds[o].(status := Lapsed) else db.holds[o])
  {
  }

  // ----- referral codes -----

  /** A code is accepted if and only if the order reaches 100000 without a coupon, the code is active, its owner is not
      locked and not the buyer, and the buyer has neither a paid order nor a live referral. */
  lemma CodeAcceptedIff(db: Db, user: UserId, code: Code, subtotal: int, hasCoupon: bool)
    ensures ValidateReferral(db, user, code, subtotal, hasCoupon).Ok?
       <==> (&& !hasCoupon && 100_000 <= subtotal
             && code in db.profiles && db.profiles[code].isActive
             && Row(db, db.profiles[code].user).status == Active
             && db.profiles[code].user != user
             && (forall o :: 0 <= o < |db.orders| && db.orders[o].user == user ==> db.orders[o].status != Paid)
             && (forall o :: o in db.referrals && db.referrals[o].referee == user ==>
                 db.referrals[o].status == Reversed))
    ensures ValidateReferral(db, user, code, subtotal, hasCoupon).Ok? ==>
              code in db.profiles
              && ValidateReferral(db, user, code, subtotal, hasCoupon).value == db.profiles[code].user
  {
  }

  /** A refused code is answered with the first of these that fails: no coupon, the minimum, a known active code, its
      owner's wallet, its owner, the first order. */
  lemma CodeRefusals(db: Db, user: UserId, code: Code, subtotal: int, hasCoupon: bool)
    ensures var r := ValidateReferral(db, user, code, subtotal, hasCoupon);
            && (r == Err(WithCoupon) <==> hasCoupon)
            && (r == Err(BelowMinimum) ==> !hasCoupon && subtotal < 100_000)
            && (r == Err(UnknownCode) ==> 100_000 <= subtotal && (code in db.profiles ==> !db.profiles[code].isActive))
            && (r == Err(ReferrerLocked) ==> code in db.profiles && Row(db, db.profiles[code].user).status == Locked)
            && (r == Err(OwnCode) ==> code in db.profiles && db.profiles[code].user == user)
            && (r == Err(NotFirstOrder) ==>
                  exists o :: 0 <= o < |db.orders| && db.orders[o].user == user && db.orders[o].status == Paid)
            && (r == Err(AlreadyUsed) ==>
                  exists o :: o in db.referrals && db.referrals[o].referee == user && Live(db.referrals[o]))
  {
  }

  // ----- placing an order -----

  /** The request passes everything that is checked before the first write. */
  ghost predicate Passes(db: Db, user: UserId, req: CheckoutRequest) {
    && !(req.coupon.Some? && req.referralCode.Some?)
    && (req.referralCode.Some? ==>
          ValidateReferral(db, user, req.referralCode.value, req.subtotal, req.coupon.Some?).Ok?)
  }

  /** A new order's row: what was asked for, at the moment, with the wallet paying as much of what is due as was offered
      and cash the rest, and two percent of what is due as cashback, to the nearest unit. */
  predicate IsNewOrder(order: Order, user: UserId, req: CheckoutRequest, now: Millis) {
    var coupon := if req.coupon.Some? then req.coupon.value else 0;
    var referral := if req.referralCode.Some? then 10_000 else 0;
    var due := order.walletSpent + order.payable;
    && order.user == user && order.status == Unpaid && order.createdAt == now && order.subtotal == req.subtotal
    && order.couponDiscount == coupon && order.referralDiscount == referral
    && (if coupon + referral <= req.subtotal then due == req.subtotal - coupon - referral else due == 0)
    && (if req.useWallet <= 0 then order.walletSpent == 0
        else order.walletSpent <= req.useWallet && (order.payable == 0 || order.walletSpent == req.useWallet))
    && 2 * due - 50 < 100 * order.cashback <= 2 * due + 50
    && order.cashbackTx.None? && !order.cashbackReversed && order.refunded == 0
  }

  lemma NewOrderIs(db: Db, user: UserId, req: CheckoutRequest)
    requires Passes(db, user, req)
    ensures IsNewOrder(NewOrder(user, req, req.referralCode.Some?, db.now), user, req, db.now)
  {
    var coupon := if req.coupon.Some? then req.coupon.value else 0;
    Pricing.CashbackBounds(req.subtotal, coupon, if req.referralCode.Some? then REFERRAL_DISCOUNT else 0,
                           req.useWallet);
  }

  /** The referral an accepted code leaves: its owner, the buyer, 10000, pending. */
  function NewReferral(db: Db, user: UserId, code: Code): Referral
    requires code in db.profiles
  {
    Referral(db.profiles[code].user, user, 10_000, Pending, None, None)
  }

  /** createPendingOrder writes nothing if the request does not pass. Otherwise it opens the order and, with a code, the
      referral, even if the hold is then refused; and the order is placed if and only if it spends no eXu or its hold is
      accepted. */
  lemma PlacedIff(db: Db, user: UserId, req: CheckoutRequest)
    requires Shapes(db)
    ensures var r, id := PlaceOrder(db, user, req), |db.orders|;
            if !Passes(db, user, req) then r.Refused? && r.db == db
            else
              && |r.db.orders| == id + 1 && r.db.orders[..id] == db.orders
              && IsNewOrder(r.db.orders[id], user, req, db.now)
              && (if req.referralCode.None? then r.db.referrals == db.referrals
                  else req.referralCode.value in db.profiles
                       && r.db.referrals == db.referrals[id := NewReferral(db, user, req.referralCode.value)])
              && var spent := r.db.orders[id].walletSpent;
                 var row := Row(db, user);
                 && (r.Placed? <==> spent == 0
                                    || (row.status == Active && Unexpired(row, db.now)
                                        && ActiveHolds(db.holds, user, db.now) + spent <= row.balance))
                 && (r.Placed? ==> r.id == id)
                 && r.db.holds == (if r.Placed? && 0 < spent
                                   then db.holds[id := Hold(user, spent, Held, db.now + 30 * 60 * 1000)] else db.holds)
                 && r.db.ledger == db.ledger && r.db.refunds == db.refunds
  {
    if Passes(db, user, req) {
      NewViewIsEmpty(db);
      NewOrderIs(db, user, req);
      if req.referralCode.Some? {
        CodeAcceptedIff(db, user, req.referralCode.value, req.subtotal, req.coupon.Some?);
      }
      var order := NewOrder(user, req, req.referralCode.Some?, db.now);
      var begun := Open(db, user, req, order);
      hide ValidateReferral, NewOrder, ActiveHolds, CreateHold, Shapes;
      if 0 < order.walletSpent {
        HoldAcceptedIff(begun, |db.orders|, user, order.walletSpent);
      }
      PlacedFrom(db, user, req, order);
    }
  }

  /** The order and its referral, before the hold. */
  ghost function Open(db: Db, user: UserId, req: CheckoutRequest, order: Order): Db {
    var referrals := if req.referralCode.Some? && req.referralCode.value in db.profiles
                     then db.referrals[|db.orders| := NewReferral(db, user, req.referralCode.value)] else db.referrals;
    db.(orders := db.orders + [order], referrals := referrals)
  }

  lemma PlacedFrom(db: Db, user: UserId, req: CheckoutRequest, order: Order)
    requires Passes(db, user, req) && |db.orders| !in db.referrals
    requires order == NewOrder(user, req, req.referralCode.Some?, db.now)
    ensures var begun := Open(db, user, req, order);
            var held := CreateHold(begun, |db.orders|, user, order.walletSpent);
            PlaceOrder(db, user, req)
            == if 0 < order.walletSpent then
                 if held.Ok? then Placed(held.value, |db.orders|) else Refused(begun, BadHold(held.error))
               else Placed(begun, |db.orders|)
  {
    if req.referralCode.Some? {
      CodeAcceptedIff(db, user, req.referralCode.value, req.subtotal, req.coupon.Some?);
    }
    hide ValidateReferral, NewOrder, CreateHold;
  }

  /** A checkout is paid at once if and only if nothing is left to pay; a manual order always is. */
  lemma PaidAtOnceIff(db: Db, user: UserId, req: CheckoutRequest, subtotal: int)
    ensures var r := Checkout(db, user, req);
            r.Placed? ==> r.id < |r.db.orders|
                          && (r.db.orders[r.id].status == Paid <==> r.db.orders[r.id].payable == 0)
                          && (r.db.orders[r.id].status == Unpaid <==> r.db.orders[r.id].payable != 0)
    ensures var r := ManualOrder(db, user, subtotal);
            r.Placed? ==> r.id < |r.db.orders| && r.db.orders[r.id].status == Paid
  {
    PlacedUnpaid(db, user, req);
    PlacedUnpaid(db, user, CheckoutRequest(subtotal, None, None, 0));
    hide PlaceOrder, Finalize;
  }

  /** A manual order is the buyer's, costs its subtotal in cash, nothing if that is negative, and spends no eXu. */
  lemma ManualRowIs(db: Db, user: UserId, subtotal: int)
    ensures var r := ManualOrder(db, user, subtotal);
            && r.Placed? && r.id == |db.orders| && |r.db.orders| == |db.orders| + 1
            && var order := r.db.orders[r.id];
               && order.user == user && order.status == Paid && order.walletSpent == 0
               && order.payable == (if subtotal < 0 then 0 else subtotal)
  {
    var req := CheckoutRequest(subtotal, None, None, 0);
    NewOrderIs(db, user, req);
    var order := NewOrder(user, req, false, db.now);
    assert PlaceOrder(db, user, req) == Placed(db.(orders := db.orders + [order]), |db.orders|);
    PaidRowKeeps(db.(orders := db.orders + [order]), |db.orders|);
    hide PlaceOrder, Finalize, NewOrder;
  }

  lemma PlacedUnpaid(db: Db, user: UserId, req: CheckoutRequest)
    ensures var placed := PlaceOrder(db, user, req);
            placed.Placed? ==> && placed.db.orders[placed.id].status == Unpaid
                               && Finalize(placed.db, placed.id).orders[placed.id].status == Paid
                               && Finalize(placed.db, placed.id).orders[placed.id].payable
                                 == placed.db.orders[placed.id].payable
  {
    hide ReferralFor, ActiveHolds;
    var placed := PlaceOrder(db, user, req);
    if placed.Placed? {
      PaidRowKeeps(placed.db, placed.id);
    }
    hide PlaceOrder, Finalize;
  }

  lemma PaidRowKeeps(db: Db, o: OrderId)
    requires o < |db.orders|
    ensures var before, after := db.orders[o], Finalize(db, o).orders[o];
            && after.status == Paid && after.user == before.user
            && after.payable == before.payable && after.walletSpent == before.walletSpent
  {
    hide Post;
  }

  // ----- cancelling -----

  /** A cancellation is accepted if and only if the order exists, is pending, and is the caller's unless an admin
      asks; it then fails the order, releases its held hold and reverses its pending referral. */
  lemma CancelledIff(db: Db, o: OrderId, caller: Option<UserId>)
    ensures var r := Cancel(db, o, caller);
            && (r.Ok? <==> o < |db.orders| && (caller.None? || caller.value == db.orders[o].user)
                           && db.orders[o].status == Unpaid)
            && (r == Err(NotFound) <==> |db.orders| <= o)
            && (r == Err(NotOwner) <==> o < |db.orders| && caller.Some? && caller.value != db.orders[o].user)
            && (r.Ok? ==> && r.value == db.(orders := db.orders[o := db.orders[o].(status := Failed)],
                                            holds := r.value.holds, referrals := r.value.referrals)
                          && FailedRows(db, r.value, o)
                          && forall p :: p != o ==> Lookup(r.value.holds, p) == Lookup(db.holds, p)
                                                    && Lookup(r.value.referrals, p) == Lookup(db.referrals, p))
  {
  }

  /** What failing an order leaves of its hold and its referral. */
  predicate FailedRows(db: Db, after: Db, o: OrderId) {
    && (o in after.holds <==> o in db.holds) && (o in after.referrals <==> o in db.referrals)
    && (o in db.holds ==>
          after.holds[o] == if db.holds[o].status == Held then db.holds[o].(status := Released) else db.holds[o])
    && (o in db.referrals ==>
          after.referrals[o] == if db.referrals[o].status == Pending
                                then db.referrals[o].(status := Reversed) else db.referrals[o])
  }

  /** The order cron job: exactly the orders pending for more than thirty minutes fail, with their holds and
      referrals. */
  lemma OverdueFailExactly(db: Db, o: OrderId)
    requires o < |db.orders|
    ensures var after := FailOverdue(db);
            && |after.orders| == |db.orders|
            && after == db.(orders := after.orders, holds := after.holds, referrals := after.referrals)
            && if db.orders[o].status == Unpaid && db.orders[o].createdAt + 30 * 60 * 1000 < db.now
               then after.orders[o] == db.orders[o].(status := Failed) && FailedRows(db, after, o)
               else after.orders[o] == db.orders[o] && Lookup(after.holds, o) == Lookup(db.holds, o)
                    && Lookup(after.referrals, o) == Lookup(db.referrals, o)
  {
  }

  // ----- refunds -----

  predicate Refundable(order: Order, amount: int) {
    order.status in {Paid, Refunded} && 0 <= amount <= order.payable + order.walletSpent - order.refunded
  }

  /** A refund is accepted if and only if the order is paid or refunded and the amount is within what is left; it then
      records the refund and closes the order with the amount added. */
  lemma RefundedIff(db: Db, o: OrderId, amount: int, mode: RefundMode)
    requires o < |db.orders|
    ensures var order, r := db.orders[o], RefundOrder(db, o, amount, mode);
            && (r.Ok? <==> Refundable(order, amount))
            && (r == Err(NotRefundable) <==> order.status in {Unpaid, Failed})
            && (r == Err(NegativeAmount) <==> order.status in {Paid, Refunded} && amount < 0)
            && (r.Ok? ==> && 0 <= amount && |r.value.orders| == |db.orders|
                          && r.value.refunds == db.refunds + [Refund(|db.refunds|, o, amount, mode)]
                          && r.value.orders[o].status == Refunded
                          && r.value.orders[o].refunded == order.refunded + amount)
  {
    hide Post, ExuShare;
    if 0 <= amount {
      ReversalRefunds(db.(refunds := db.refunds + [Refund(|db.refunds|, o, amount, mode)]), o);
    }
    hide ReverseCashback, ReverseReferral;
  }

  lemma ReversalRefunds(db: Db, o: OrderId)
    requires o < |db.orders|
    ensures ReverseReferral(ReverseCashback(db, o), o).refunds == db.refunds
  {
    hide Post;
  }

  /** So after any run, a refund request raises what was refunded by its amount exactly then, and changes nothing
      otherwise. */
  lemma {:induction false} RunRefundedIff(start: Millis, steps: seq<Step>, o: OrderId, amount: int, mode: RefundMode)
    requires o < |Run(EmptyDb(start), steps).orders|
    ensures var db := Run(EmptyDb(start), steps);
            var after := Run(EmptyDb(start), steps + [RefundPaid(o, amount, mode)]);
            if Refundable(db.orders[o], amount) then
              && |after.orders| == |db.orders|
              && after.orders[o].status == Refunded && after.orders[o].refunded == db.orders[o].refunded + amount
              && 0 <= amount && after.refunds == db.refunds + [Refund(|db.refunds|, o, amount, mode)]
            else after == db
  {
    var step := RefundPaid(o, amount, mode);
    assert (steps + [step])[..|steps|] == steps;
    RefundedIff(Run(EmptyDb(start), steps), o, amount, mode);
    hide RefundOrder;
  }

  // ----- referral rewards -----

  /** After any run an order carries a referral discount if and only if it has a referral, and if it is then paid, its
      referrer has been given 10000 for it. */
  lemma {:induction false} RunReferralPaid(start: Millis, steps: seq<Step>, o: OrderId)
    requires o < |Run(EmptyDb(start), steps).orders|
    ensures var db := Run(EmptyDb(start), steps);
            && (0 < db.orders[o].referralDiscount <==> o in db.referrals)
            && (o in db.referrals ==> db.orders[o].referralDiscount == 10_000 && db.referrals[o].reward == 10_000)
            && (o in db.referrals && db.orders[o].status == Paid ==>
                  && db.referrals[o].status == Credited
                  && OwnTotal(OwnEntries(db.ledger, o), db.referrals[o].referrer) == 10_000
                  && Sum(OwnEntries(db.ledger, o), REWARDS) == 10_000)
  {
    RunView(start, steps, o);
    var db := Run(EmptyDb(start), steps);
    RowsOfView(db, o);
    var v := ViewAt(db, o);
    RewardNets(v, o);
    hide Run, ViewAt, OwnEntries, Sum, OwnTotal;
    if o in db.referrals && db.orders[o].status == Paid {
      ReferrerTotal(v, o);
    }
  }

  lemma ReferrerTotal(v: View, o: OrderId)
    requires ViewOk(v, o) && v.order.status == Paid && v.referral.Some?
    ensures OwnTotal(v.own, v.referral.value.referrer) == v.referral.value.reward
  {
    PaidTotal(v, o, v.referral.value.referrer);
    hide PaidEntries, OwnTotal;
  }

  // ----- the expiry job, on the rows -----

  /** The query of the job lists every active wallet past its expiry, once each. */
  lemma ListsExpiredIff(db: Db, users: seq<UserId>)
    ensures ListsExpired(db, users)
       <==> (&& (forall i, j :: 0 <= i < j < |users| ==> users[i] != users[j])
             && (forall u :: u in users <==> u in db.wallets && db.wallets[u].status == Active
                                             && !Unexpired(db.wallets[u], db.now)))
  {
    forall u | (u in users <==> u in db.wallets && Expired(db.wallets[u], db.now))
      ensures u in users <==> u in db.wallets && db.wallets[u].status == Active && !Unexpired(db.wallets[u], db.now)
    {
    }
  }

  /** After any run the job takes the positive balances of exactly the active wallets past their expiry. */
  lemma {:induction false} RunExpiresExactly(start: Millis, steps: seq<Step>, users: seq<UserId>, user: UserId)
    requires ListsExpired(Run(EmptyDb(start), steps), users) && user in Run(EmptyDb(start), steps).wallets
    ensures var db := Run(EmptyDb(start), steps);
            var after := Apply(db, ExpireBalances(users));
            && user in after.wallets
            && after.wallets[user]
               == if db.wallets[user].status == Active && !Unexpired(db.wallets[user], db.now)
                 && 0 < db.wallets[user].balance
                  then db.wallets[user].(balance := 0) else db.wallets[user]
  {
    RunInvariant(start, steps);
    var db := Run(EmptyDb(start), steps);
    hide Run, Inv, ViewAt, ExpireRows;
    ExpireRowsKeep(db, users, db.wallets);
  }

  // ----- postings and admin operations -----

  predicate IsCredit(tx: TxType) {
    tx == OrderCashback || tx == ReferralReward || tx == RefundToWallet || tx == ManualCredit
  }

  /** A fresh posting adds one entry and moves one wallet: its balance by the amount, its expiry to 365 days from now
      for the four kinds of credit only. */
  lemma PostedIs(db: Db, user: UserId, tx: TxType, amount: int, order: Option<OrderId>, key: Option<Key>)
    requires amount != 0 && (key.Some? ==> forall i :: 0 <= i < |db.ledger| ==> db.ledger[i].key != key)
    ensures var row, after := Row(db, user), Post(db, user, tx, amount, order, key).db;
            && after == db.(wallets := after.wallets, ledger := after.ledger)
            && after.ledger == db.ledger + [Entry(user, tx, amount, row.balance + amount, order, key)]
            && after.wallets == db.wallets[user := Wallet(row.balance + amount, row.status,
                 if IsCredit(tx) && 0 < amount then Some(db.now + 365 * 24 * 60 * 60 * 1000) else row.expiresAt)]
  {
    hide FindKey;
  }

  lemma AdjustedIs(db: Db, user: UserId, amount: int)
    requires amount != 0
    ensures var row, after := Row(db, user), Adjust(db, user, amount);
            && user in after.wallets && after.wallets[user].balance == row.balance + amount
            && after.ledger == db.ledger + [Entry(user, if 0 < amount then ManualCredit else ManualDebit, amount,
                                                  row.balance + amount, None, None)]
  {
    PostedIs(db, user, if 0 < amount then ManualCredit else ManualDebit, amount, None, None);
  }

  lemma CancelledBalanceIs(db: Db, user: UserId)
    ensures var row, after := Row(db, user), CancelBalance(db, user);
            && after.wallets == db.wallets[user := row.(balance := 0)]
            && after.ledger == db.ledger + if row.balance == 0 then []
                                           else [Entry(user, ManualCancel, -row.balance, 0, None, None)]
  {
  }

  lemma StatusIs(db: Db, user: UserId, status: WalletStatus)
    ensures SetWalletStatus(db, user, status) == db.(wallets := db.wallets[user := Row(db, user).(status := status)])
  {
  }
}
