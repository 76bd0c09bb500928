/** A wallet's balance, split into what one order posted and what everything else posted; and so the exact effect of a
    payment and of a refund on every wallet. */
module Balances {
  import opened Domain
  import opened Ledger
  import opened Wallets
  import opened Orders
  import opened OrderView
  import opened Statements
  import opened Invariant
  import Rounding

  function OwnTotal(own: seq<Own>, user: UserId): int {
    if |own| == 0 then 0
    else OwnTotal(own[..|own| - 1], user) + if own[|own| - 1].user == user then own[|own| - 1].amount else 0
  }

  /** What all other orders, refunds, adjustments and expiries add up to for a user. */
  function OthersTotal(ledger: seq<Entry>, o: OrderId, user: UserId): int {
    if |ledger| == 0 then 0
    else
      var e := ledger[|ledger| - 1];
      OthersTotal(ledger[..|ledger| - 1], o, user) + if e.user == user && e.order != Some(o) then e.amount else 0
  }

  lemma OwnTotalAppend(own: seq<Own>, e: Own, user: UserId)
    ensures OwnTotal(own + [e], user) == OwnTotal(own, user) + if e.user == user then e.amount else 0
  {
    assert (own + [e])[..|own|] == own;
  }

  lemma {:induction false} TotalSplits(ledger: seq<Entry>, o: OrderId, user: UserId)
    ensures Total(ledger, user) == OwnTotal(OwnEntries(ledger, o), user) + OthersTotal(ledger, o, user)
  {
    if |ledger| > 0 {
      var last := |ledger| - 1;
      TotalSplits(ledger[..last], o, user);
      if ledger[last].order == Some(o) {
        OwnTotalAppend(OwnEntries(ledger[..last], o), OwnOf(ledger[last]), user);
      } else {
        assert OwnEntries(ledger, o) == OwnEntries(ledger[..last], o);
      }
    }
  }

  lemma PostOthers(db: Db, to: UserId, tx: TxType, amount: int, o: OrderId, key: Key, user: UserId)
    requires amount != 0
    ensures OthersTotal(Post(db, to, tx, amount, Some(o), Some(key)).db.ledger, o, user)
            == OthersTotal(db.ledger, o, user)
  {
    var after := Post(db, to, tx, amount, Some(o), Some(key)).db;
    if !Replayed(db, Some(key)) {
      assert after.ledger[..|db.ledger|] == db.ledger;
    }
  }

  lemma {:induction false} BenefitsOthers(db: Db, o: OrderId, n: nat, user: UserId)
    requires o < |db.orders| && n <= BENEFIT_STAGES
    ensures OthersTotal(BenefitsUpTo(db, o, n).ledger, o, user) == OthersTotal(db.ledger, o, user)
  {
    hide Post, OthersTotal;
    if n > 0 {
      var before := BenefitsUpTo(db, o, n - 1);
      BenefitsOthers(db, o, n - 1, user);
      if n == 1 && o in before.holds {
        var hold := before.holds[o];
        PostOthers(before, hold.user, RedemptionCapture, Minus(hold.amount), o, CaptureKey(o), user);
      } else if n == 2 && CashbackDue(before.orders[o]) {
        PostOthers(before, before.orders[o].user, OrderCashback, before.orders[o].cashback, o, CashbackKey(o), user);
      } else if n == 4 && RewardDue(before, o) {
        PostOthers(before, before.referrals[o].referrer, ReferralReward, before.referrals[o].reward, o, RewardKey(o),
                   user);
      }
    }
  }

  lemma {:induction false} OwnTotalConcat(a: seq<Own>, b: seq<Own>, user: UserId)
    ensures OwnTotal(a + b, user) == OwnTotal(a, user) + OwnTotal(b, user)
  {
    if |b| == 0 {
      assert a + b == a;
    } else {
      assert (a + b)[..|a + b| - 1] == a + b[..|b| - 1];
      OwnTotalConcat(a, b[..|b| - 1], user);
    }
  }

  /** A handler that posts for one order only changes every balance by what that order's own entries gained. */
  lemma BalanceFromOwn(db: Db, after: Db, o: OrderId, user: UserId)
    requires Books(db) && Books(after) && OthersTotal(after.ledger, o, user) == OthersTotal(db.ledger, o, user)
    ensures WalletOf(after.wallets, user).balance - WalletOf(db.wallets, user).balance
         == OwnTotal(OwnEntries(after.ledger, o), user) - OwnTotal(OwnEntries(db.ledger, o), user)
  {
    TotalSplits(db.ledger, o, user);
    TotalSplits(after.ledger, o, user);
    hide Total, OwnTotal, OthersTotal, OwnEntries, WalletOf, RunningBalances, KeysDistinct, ExpiryOk, Shapes, IdsOk,
         OneLiveReferral;
  }

  // ----- a payment -----

  function Gains(user: UserId, owner: UserId, amount: int): int {
    if user == owner then amount else 0
  }

  predicate HoldDue(db: Db, o: OrderId) {
    o in db.holds && db.holds[o].status == Held
  }

  /** What paying order o does to a user's balance: the held eXu goes, cashback and reward come. */
  function PaymentEffect(db: Db, o: OrderId, user: UserId): int
    requires o < |db.orders|
  {
    Gains(user, db.orders[o].user, db.orders[o].cashback)
    - (if HoldDue(db, o) then Gains(user, db.orders[o].user, db.orders[o].walletSpent) else 0)
    + (if o in db.referrals then Gains(user, db.referrals[o].referrer, db.referrals[o].reward) else 0)
  }

  lemma OwnTotalOne(e: Own, user: UserId)
    ensures OwnTotal([e], user) == Gains(user, e.user, e.amount)
  {
    assert [e][..0] == [];
  }

  lemma PaidTotal(v: View, o: OrderId, user: UserId)
    ensures OwnTotal(PaidEntries(v, o), user)
         == Gains(user, v.order.user, v.order.cashback)
            - (if v.hold.Some? && v.hold.value.status == Captured then Gains(user, v.order.user, v.order.walletSpent)
               else 0)
            + (if v.referral.Some? then Gains(user, v.referral.value.referrer, v.referral.value.reward) else 0)
  {
    OwnTotalConcat(CapturePart(v, o), CashbackPart(v, o), user);
    OwnTotalConcat(CapturePart(v, o) + CashbackPart(v, o), RewardPart(v, o), user);
    forall e: Own ensures OwnTotal([e], user) == Gains(user, e.user, e.amount) {
      OwnTotalOne(e, user);
    }
  }

  /** What the view of an order says of its rows. */
  lemma RowsOfView(db: Db, o: OrderId)
    requires o < |db.orders|
    ensures var v := ViewAt(db, o);
            && v.own == OwnEntries(db.ledger, o) && v.hold == Lookup(db.holds, o)
            && v.order == db.orders[o].(cashbackTx := Mark(db.orders[o].cashbackTx))
            && (v.referral.Some? <==> o in db.referrals)
            && (o in db.referrals ==> v.referral.value == ReferralView(db.referrals[o]))
            && v.refunds == RefundsOf(db.refunds, o)
  {
  }

  lemma FinalizeOthers(db: Db, o: OrderId, user: UserId)
    requires o < |db.orders|
    ensures OthersTotal(Finalize(db, o).ledger, o, user) == OthersTotal(db.ledger, o, user)
  {
    hide CompleteBenefits, BenefitsUpTo, OthersTotal;
    var d0 := db.(orders := db.orders[o := db.orders[o].(status := Paid)]);
    BenefitsAreAllStages(d0, o);
    BenefitsOthers(d0, o, BENEFIT_STAGES, user);
  }

  /** What paying leaves of an order's hold and referral. */
  lemma PaidRows(v: View, o: OrderId)
    requires ViewOk(v, o) && v.order.status == Unpaid
    ensures var w := VFinalize(v, o);
            && v.own == [] && w.own == PaidEntries(w, o)
            && w.order.user == v.order.user && w.order.cashback == v.order.cashback
            && w.order.walletSpent == v.order.walletSpent
            && (w.hold.Some? && w.hold.value.status == Captured <==> v.hold.Some? && v.hold.value.status == Held)
            && (w.referral.Some? <==> v.referral.Some?)
            && (w.referral.Some? ==> w.referral.value.referrer == v.referral.value.referrer
                                     && w.referral.value.reward == v.referral.value.reward)
  {
    hide VCapture, VCashback, VCashbackMark, VReward, VRewardMark;
    var v0 := v.(order := v.order.(status := Paid));
    VCaptureAdds(v0, o);
    var v1 := VCapture(v0, o);
    VCashbackAdds(v1, o);
    VRewardAdds(VCashbackMark(VCashback(v1, o), o), o);
    hide RefundEntries, ReversalEntries, AmountSum, OrderValue;
  }

  lemma FinalizeBalance(db: Db, o: OrderId, user: UserId)
    requires Inv(db) && o < |db.orders| && db.orders[o].status == Unpaid
    ensures WalletOf(Finalize(db, o).wallets, user).balance == WalletOf(db.wallets, user).balance
            + PaymentEffect(db, o, user)
  {
    var after := Finalize(db, o);
    BooksShapes(db);
    RowsOfView(db, o);
    RowsOfView(after, o);
    assert ViewOk(ViewAt(db, o), o);
    hide Books, ViewsOk, Shapes, ViewAt, ViewOk, Finalize, VFinalize, OwnEntries, OwnTotal, OthersTotal, PaidEntries,
         RefundsOf, WalletOf;
    FinalizeBooks(db, o);
    FinalizeView(db, o, o);
    FinalizeOthers(db, o, user);
    BalanceFromOwn(db, after, o, user);
    PaidRows(ViewAt(db, o), o);
    PaidTotal(ViewAt(after, o), o, user);
    NoOwnTotal(user);
  }

  lemma NoOwnTotal(user: UserId)
    ensures OwnTotal([], user) == 0
  {
  }

  // ----- a refund -----

  predicate CashbackReversalDue(order: Order) {
    0 < order.cashback && !order.cashbackReversed
  }

  predicate RewardReversalDue(db: Db, o: OrderId) {
    o in db.referrals && db.referrals[o].status == Credited
  }

  /** What a refund brings back to the buyer's wallet. */
  function Returned(order: Order, amount: nat, mode: RefundMode): int {
    if mode == ToWallet then amount else ExuShare(order, amount)
  }

  function RefundEffect(db: Db, o: OrderId, amount: nat, mode: RefundMode, user: UserId): int
    requires o < |db.orders|
  {
    Gains(user, db.orders[o].user, Returned(db.orders[o], amount, mode))
    - (if CashbackReversalDue(db.orders[o]) then Gains(user, db.orders[o].user, db.orders[o].cashback) else 0)
    - (if RewardReversalDue(db, o) then Gains(user, db.referrals[o].referrer, db.referrals[o].reward) else 0)
  }

  lemma ReversalTotal(v: View, o: OrderId, user: UserId)
    ensures OwnTotal(ReversalEntries(v, o), user)
         == -Gains(user, v.order.user, if 0 < v.order.cashback then v.order.cashback else 0)
            - (if v.referral.Some? then Gains(user, v.referral.value.referrer, v.referral.value.reward) else 0)
  {
    OwnTotalConcat(CashbackReversalPart(v, o), RewardReversalPart(v, o), user);
    forall e: Own ensures OwnTotal([e], user) == Gains(user, e.user, e.amount) {
      OwnTotalOne(e, user);
    }
  }

  lemma ReturnTotal(order: Order, r: Refund, user: UserId)
    requires 0 <= ExuShare(order, r.amount) <= r.amount
    ensures OwnTotal(RefundEntry(order, r), user) == Gains(user, order.user, Returned(order, r.amount, r.mode))
  {
    var exu := ExuShare(order, r.amount);
    var cash := CashShare(order, r);
    OwnTotalConcat(if 0 < exu then [Own(order.user, RefundToWallet, exu, Some(RefundExuKey(r.id)))] else [],
                   if 0 < cash then [Own(order.user, RefundToWallet, cash, Some(RefundCashKey(r.id)))] else [], user);
    forall e: Own ensures OwnTotal([e], user) == Gains(user, e.user, e.amount) {
      OwnTotalOne(e, user);
    }
    hide ExuShare;
  }

  lemma PostedOthers(db: Db, to: UserId, amount: int, o: OrderId, key: Key, user: UserId)
    ensures OthersTotal(ReturnToWallet(db, to, amount, o, key).ledger, o, user) == OthersTotal(db.ledger, o, user)
  {
    hide OthersTotal, Post;
    if 0 < amount {
      PostOthers(db, to, RefundToWallet, amount, o, key, user);
    }
  }

  lemma ReversalsOthers(db: Db, o: OrderId, user: UserId)
    requires o < |db.orders|
    ensures OthersTotal(Reversals(db, o).ledger, o, user) == OthersTotal(db.ledger, o, user)
  {
    hide OthersTotal, Post;
    var order := db.orders[o];
    if CashbackReversalDue(order) {
      PostOthers(db, order.user, OrderCashbackReversal, Minus(order.cashback), o, CashbackReversalKey(o), user);
    }
    var mid := ReverseCashback(db, o);
    if o in mid.referrals {
      PostOthers(mid, mid.referrals[o].referrer, ReferralRewardReversal, Minus(mid.referrals[o].reward), o,
                 RewardReversalKey(o), user);
    }
  }

  lemma RefundOthers(db: Db, o: OrderId, r: Refund, user: UserId)
    requires o < |db.orders| && r.order == o
    ensures OthersTotal(RefundRun(db, o, r).ledger, o, user) == OthersTotal(db.ledger, o, user)
  {
    hide OthersTotal, ReturnToWallet, Reversals;
    var order := db.orders[o];
    var d1 := db.(refunds := db.refunds + [r]);
    ReversalsOthers(d1, o, user);
    var d2 := Reversals(d1, o);
    PostedOthers(d2, order.user, ExuShare(order, r.amount), o, RefundExuKey(r.id), user);
    var d3 := ReturnToWallet(d2, order.user, ExuShare(order, r.amount), o, RefundExuKey(r.id));
    PostedOthers(d3, order.user, CashShare(order, r), o, RefundCashKey(r.id), user);
  }

  /** The entries a refund adds to its order: its returns, after the reversals if it is the first. */
  lemma RefundAddsOwn(v: View, o: OrderId, r: Refund)
    requires ViewOk(v, o) && RefundAllowed(v, r)
    ensures VRefund(v, o, r).own
         == v.own + (if v.order.status == Paid then ReversalEntries(v, o) else []) + RefundEntry(v.order, r)
  {
    VRefundAdds(v, o, r);
    ReversalStatement(v, o);
    hide VRefund, VReverse, PaidEntries, ReversalEntries, RefundEntry;
  }

  /** In a paid order all reversals are due, in a refunded one none. */
  lemma ReversalsDueIffPaid(v: View, o: OrderId)
    requires ViewOk(v, o) && v.order.status in {Paid, Refunded}
    ensures CashbackReversalDue(v.order) <==> v.order.status == Paid && 0 < v.order.cashback
    ensures v.referral.Some? ==> (v.referral.value.status == Credited <==> v.order.status == Paid)
  {
  }

  lemma RefundBalance(db: Db, o: OrderId, amount: int, mode: RefundMode, user: UserId)
    requires Inv(db) && o < |db.orders| && RefundOrder(db, o, amount, mode).Ok?
    ensures 0 <= amount && WalletOf(RefundOrder(db, o, amount, mode).value.wallets, user).balance
         == WalletOf(db.wallets, user).balance + RefundEffect(db, o, amount, mode, user)
  {
    BooksShapes(db);
    RefundIsRun(db, o, amount, mode);
    var r := Refund(|db.refunds|, o, amount, mode);
    var after := RefundRun(db, o, r);
    RowsOfView(db, o);
    RowsOfView(after, o);
    RefundIsAllowed(db, o, r);
    assert ViewOk(ViewAt(db, o), o);
    ExuInRange(db.orders[o], amount);
    ReversalsDueIffPaid(ViewAt(db, o), o);
    hide Books, ViewsOk, Shapes, ViewAt, ViewOk, RefundOrder, RefundRun, VRefund, OwnEntries, OwnTotal, OthersTotal,
         RefundsOf,
         WalletOf, RefundAllowed, ReversalEntries, RefundEntry, ExuShare;
    RefundRunBooks(db, o, r);
    RefundRunView(db, o, r, o);
    RefundOthers(db, o, r, user);
    BalanceFromOwn(db, after, o, user);
    var v := ViewAt(db, o);
    RefundAddsOwn(v, o, r);
    var reversals := if v.order.status == Paid then ReversalEntries(v, o) else [];
    OwnTotalConcat(v.own + reversals, RefundEntry(v.order, r), user);
    OwnTotalConcat(v.own, reversals, user);
    NoOwnTotal(user);
    ReversalTotal(v, o, user);
    SameShare(db.orders[o], v.order, amount, mode);
    ReturnTotal(v.order, r, user);
  }

  lemma SameShare(order: Order, order': Order, amount: nat, mode: RefundMode)
    requires order' == order.(cashbackTx := order'.cashbackTx)
    ensures ExuShare(order', amount) == ExuShare(order, amount)
            && Returned(order', amount, mode) == Returned(order, amount, mode)
  {
  }

  lemma ExuInRange(order: Order, amount: nat)
    requires amount <= OrderValue(order)
    ensures 0 <= ExuShare(order, amount) <= amount
  {
    if 0 < OrderValue(order) {
      Rounding.ShareBounds(amount, order.walletSpent, OrderValue(order));
    }
  }

  // ----- what neither touches -----

  lemma FinalizeHolds(db: Db, o: OrderId)
    requires o < |db.orders|
    ensures var after := Finalize(db, o);
            && after.now == db.now
            && after.holds == if 0 < db.orders[o].walletSpent && HoldDue(db, o)
                              then db.holds[o := db.holds[o].(status := Captured)] else db.holds
  {
    hide Post, CaptureStage, CashbackStage, CashbackMarkStage, RewardStage, RewardMarkStage;
    var d0 := db.(orders := db.orders[o := db.orders[o].(status := Paid)]);
    CaptureHolds(d0, o);
    var d1 := CaptureStage(d0, o);
    LaterHolds(d1, o);
    var d2 := CashbackStage(d1, o);
    LaterHolds(d2, o);
    var d3 := CashbackMarkStage(d2, o);
    LaterHolds(d3, o);
    LaterHolds(RewardStage(d3, o), o);
  }

  /** Of the writes of a payment only the capture touches a hold. */
  lemma CaptureHolds(db: Db, o: OrderId)
    requires o < |db.orders|
    ensures CaptureStage(db, o).now == db.now
    ensures CaptureStage(db, o).holds
         == if 0 < db.orders[o].walletSpent && HoldDue(db, o) then db.holds[o := db.holds[o].(status := Captured)]
           else db.holds
  {
    hide Post;
  }

  lemma LaterHolds(db: Db, o: OrderId)
    requires o < |db.orders|
    ensures CashbackStage(db, o).now == CashbackMarkStage(db, o).now == db.now
    ensures RewardStage(db, o).now == RewardMarkStage(db, o).now == db.now
    ensures CashbackStage(db, o).holds == CashbackMarkStage(db, o).holds == db.holds
    ensures RewardStage(db, o).holds == RewardMarkStage(db, o).holds == db.holds
  {
    hide Post;
  }

  lemma RefundHolds(db: Db, o: OrderId, amount: int, mode: RefundMode)
    requires o < |db.orders| && RefundOrder(db, o, amount, mode).Ok?
    ensures RefundOrder(db, o, amount, mode).value.holds == db.holds
            && RefundOrder(db, o, amount, mode).value.now == db.now
  {
    hide Post, ExuShare;
    ReversalHolds(db.(refunds := db.refunds + [Refund(|db.refunds|, o, amount, mode)]), o);
    hide ReverseCashback, ReverseReferral;
  }

  lemma ReversalHolds(db: Db, o: OrderId)
    requires o < |db.orders|
    ensures var after := ReverseReferral(ReverseCashback(db, o), o);
            after.holds == db.holds && after.now == db.now
  {
    hide Post;
  }
}
