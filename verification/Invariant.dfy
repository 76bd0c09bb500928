/** The invariant of the shop's database, and every handler's proof that it keeps it. */
module Invariant {
  import opened Domain
  import opened Ledger
  import opened Wallets
  import opened Orders
  import opened OrderView
  import opened Statements
  import Pricing

  // ----- the invariant -----

  predicate Names(ledger: seq<Entry>, id: Option<TxId>, key: Key) {
    id.Some? ==> id.value < |ledger| && ledger[id.value].key == Some(key)
  }

  /** Stored transaction ids name the entries they were stored for. */
  ghost predicate IdsOk(db: Db) {
    && (forall o :: 0 <= o < |db.orders| ==> Names(db.ledger, db.orders[o].cashbackTx, CashbackKey(o)))
    && (forall o :: o in db.referrals ==> ReferralIds(db.ledger, db.referrals[o], o))
  }

  predicate ReferralIds(ledger: seq<Entry>, referral: Referral, o: OrderId) {
    && Names(ledger, referral.rewardTx, RewardKey(o))
    && Names(ledger, referral.reversalTx, RewardReversalKey(o))
  }

  /** A referee has at most one referral that is pending or credited. */
  ghost predicate OneLiveReferral(referrals: map<OrderId, Referral>) {
    forall a, b :: a in referrals && b in referrals && a != b && Live(referrals[a]) && Live(referrals[b]) ==>
      referrals[a].referee != referrals[b].referee
  }

  ghost predicate Books(db: Db) {
    && LedgerOk(db.wallets, db.ledger)
    && ExpiryOk(db.wallets, db.ledger, db.now)
    && Shapes(db)
    && IdsOk(db)
    && OneLiveReferral(db.referrals)
  }

  ghost predicate ViewsOk(db: Db) {
    forall o: OrderId :: o < |db.orders| ==> ViewOk(ViewAt(db, o), o)
  }

  ghost predicate Inv(db: Db) {
    Books(db) && ViewsOk(db)
  }

  lemma BooksShapes(db: Db)
    requires Books(db)
    ensures Shapes(db)
  {
  }

  // ----- what a step may do to one order -----

  ghost predicate Untouched(db: Db, after: Db, o: OrderId) {
    && |after.orders| == |db.orders|
    && forall p: OrderId :: p < |db.orders| && p != o ==> ViewAt(after, p) == ViewAt(db, p)
  }

  predicate RefundAllowed(v: View, r: Refund) {
    && v.order.status in {Paid, Refunded}
    && v.order.refunded + r.amount <= OrderValue(v.order)
    && forall i :: 0 <= i < |v.refunds| ==> v.refunds[i].id < r.id
  }

  ghost predicate ViewStep(v: View, w: View, o: OrderId) {
    || w == v
    || (v.order.status == Unpaid && (w == VFinalize(v, o) || w == VFail(v)))
    || (exists now :: w == VExpireHold(v, now))
    || (exists r :: RefundAllowed(v, r) && w == VRefund(v, o, r))
  }

  lemma ViewStepKeeps(v: View, w: View, o: OrderId)
    requires ViewOk(v, o) && ViewStep(v, w, o)
    ensures ViewOk(w, o)
  {
    if w == v {
    } else if exists now :: w == VExpireHold(v, now) {
      var now :| w == VExpireHold(v, now);
      ExpireHoldStatement(v, o, now);
    } else if exists r :: RefundAllowed(v, r) && w == VRefund(v, o, r) {
      var r :| RefundAllowed(v, r) && w == VRefund(v, o, r);
      RefundStatement(v, o, r);
    } else if w == VFail(v) {
      FailStatement(v, o);
    } else {
      FinalizeStatement(v, o);
    }
  }

  /** Orders already there take one step each, at most. */
  ghost predicate ViewsStep(db: Db, after: Db) {
    && |db.orders| <= |after.orders|
    && forall p: OrderId :: p < |db.orders| ==> ViewStep(ViewAt(db, p), ViewAt(after, p), p)
  }

  lemma RowOfView(db: Db, o: OrderId)
    requires o < |db.orders|
    ensures ViewAt(db, o).order == db.orders[o].(cashbackTx := Mark(db.orders[o].cashbackTx))
  {
  }

  lemma ViewsStepKeeps(db: Db, after: Db)
    requires ViewsOk(db) && ViewsStep(db, after) && |after.orders| == |db.orders|
    ensures ViewsOk(after)
  {
    forall o: OrderId | o < |after.orders| ensures ViewOk(ViewAt(after, o), o) {
      ViewStepKeeps(ViewAt(db, o), ViewAt(after, o), o);
    }
  }

  // ----- postings -----

  lemma PostNames(db: Db, user: UserId, tx: TxType, amount: int, order: Option<OrderId>, key: Option<Key>)
    requires amount != 0
    ensures var posted := Post(db, user, tx, amount, order, key);
            && db.ledger <= posted.db.ledger
            && (key.Some? ==> Names(posted.db.ledger, Some(posted.id), key.value))
  {
  }

  /** The log only grows, so stored ids keep naming the same entries. */
  lemma IdsStay(db: Db, after: Db)
    requires IdsOk(db) && db.ledger <= after.ledger && after.orders == db.orders && after.referrals == db.referrals
    ensures IdsOk(after)
  {
  }

  lemma PostKeepsBooks(db: Db, user: UserId, tx: TxType, amount: int, order: Option<OrderId>, key: Option<Key>)
    requires amount != 0 && Books(db) && Expirable(db, user, tx, amount, key) && Fits(db, order, key)
    ensures Books(Post(db, user, tx, amount, order, key).db)
  {
    PostKeepsLedger(db, user, tx, amount, order, key);
    PostKeepsExpiry(db, user, tx, amount, order, key);
    PostKeepsShapes(db, user, tx, amount, order, key);
    PostNames(db, user, tx, amount, order, key);
    var after := Post(db, user, tx, amount, order, key).db;
    IdsStay(db, after);
  }

  /** A stored id stays, or is set to the entry it is for. */
  predicate IdNext(ledger: seq<Entry>, before: Option<TxId>, after: Option<TxId>, key: Key) {
    after == before || Names(ledger, after, key)
  }

  predicate ReferralNext(ledger: seq<Entry>, o: OrderId, before: Referral, after: Referral) {
    && after.referee == before.referee && (Live(after) ==> Live(before))
    && IdNext(ledger, before.rewardTx, after.rewardTx, RewardKey(o))
    && IdNext(ledger, before.reversalTx, after.reversalTx, RewardReversalKey(o))
  }

  /** Changing order, hold and referral rows without touching money keeps the books. */
  lemma RowsKeepBooks(db: Db, after: Db)
    requires Books(db)
    requires after.wallets == db.wallets && after.ledger == db.ledger && after.now == db.now
             && after.refunds == db.refunds
    requires |after.orders| == |db.orders| && after.holds.Keys == db.holds.Keys
             && after.referrals.Keys == db.referrals.Keys
    requires forall o :: 0 <= o < |db.orders| ==>
               IdNext(db.ledger, db.orders[o].cashbackTx, after.orders[o].cashbackTx, CashbackKey(o))
    requires forall o :: o in db.referrals ==> ReferralNext(db.ledger, o, db.referrals[o], after.referrals[o])
    ensures Books(after)
  {
    assert Shapes(after);
    assert IdsOk(after);
    assert OneLiveReferral(after.referrals);
  }

  // ----- payment -----

  lemma CaptureBooks(db: Db, o: OrderId)
    requires Books(db) && o < |db.orders|
    ensures Books(CaptureStage(db, o))
  {
    if 0 < db.orders[o].walletSpent && o in db.holds && db.holds[o].status == Held {
      PostKeepsBooks(db, db.holds[o].user, RedemptionCapture, Minus(db.holds[o].amount), Some(o), Some(CaptureKey(o)));
    }
  }

  lemma CashbackBooks(db: Db, o: OrderId)
    requires Books(db) && o < |db.orders|
    ensures Books(CashbackStage(db, o))
  {
    var order := db.orders[o];
    if CashbackDue(order) {
      PostKeepsBooks(db, order.user, OrderCashback, order.cashback, Some(o), Some(CashbackKey(o)));
    }
  }

  lemma CashbackMarkBooks(db: Db, o: OrderId)
    requires Books(db) && o < |db.orders|
    ensures Books(CashbackMarkStage(db, o))
  {
    hide Books;
    RowsKeepBooks(db, CashbackMarkStage(db, o));
  }

  lemma RewardBooks(db: Db, o: OrderId)
    requires Books(db) && o < |db.orders|
    ensures Books(RewardStage(db, o))
  {
    if RewardDue(db, o) {
      PostKeepsBooks(db, db.referrals[o].referrer, ReferralReward, db.referrals[o].reward, Some(o), Some(RewardKey(o)));
    }
  }

  lemma RewardMarkBooks(db: Db, o: OrderId)
    requires Books(db) && o < |db.orders|
    ensures Books(RewardMarkStage(db, o))
  {
    hide Books;
    RowsKeepBooks(db, RewardMarkStage(db, o));
  }

  lemma FinalizeBooks(db: Db, o: OrderId)
    requires Books(db) && o < |db.orders|
    ensures Books(Finalize(db, o))
  {
    hide Books, CaptureStage, CashbackStage, CashbackMarkStage, RewardStage, RewardMarkStage;
    var d0 := db.(orders := db.orders[o := db.orders[o].(status := Paid)]);
    RowsKeepBooks(db, d0);
    CaptureBooks(d0, o);
    var d1 := CaptureStage(d0, o);
    CashbackBooks(d1, o);
    var d2 := CashbackStage(d1, o);
    CashbackMarkBooks(d2, o);
    var d3 := CashbackMarkStage(d2, o);
    RewardBooks(d3, o);
    RewardMarkBooks(RewardStage(d3, o), o);
  }

  lemma SameShapes(db: Db, after: Db)
    requires Shapes(db) && after.ledger == db.ledger && |after.orders| == |db.orders| && after.refunds == db.refunds
    requires after.holds.Keys == db.holds.Keys && after.referrals.Keys == db.referrals.Keys
    ensures Shapes(after)
  {
  }

  lemma FinalizeView(db: Db, o: OrderId, p: OrderId)
    requires Shapes(db) && o < |db.orders| && p < |db.orders|
    ensures ViewAt(Finalize(db, o), p) == if p == o then VFinalize(ViewAt(db, o), o) else ViewAt(db, p)
  {
    SameShapes(db, db.(orders := db.orders[o := db.orders[o].(status := Paid)]));
    hide Shapes, CaptureStage, CashbackStage, CashbackMarkStage, RewardStage, RewardMarkStage, OwnEntries, RefundsOf,
         VCapture, VCashback, VCashbackMark, VReward, VRewardMark;
    var d0 := db.(orders := db.orders[o := db.orders[o].(status := Paid)]);
    BenefitsAreAllStages(d0, o);
    BenefitsView(d0, o, BENEFIT_STAGES, p);
    VCompleteIsAllStages(ViewAt(d0, o), o);
  }

  lemma FinalizeKeeps(db: Db, o: OrderId)
    requires Inv(db) && o < |db.orders| && db.orders[o].status == Unpaid
    ensures Inv(Finalize(db, o)) && ViewsStep(db, Finalize(db, o)) && Untouched(db, Finalize(db, o), o)
  {
    BooksShapes(db);
    hide Shapes, Books, ViewAt, ViewOk, VFinalize, CompleteBenefits;
    RowOfView(db, o);
    FinalizeBooks(db, o);
    forall p: OrderId | p < |db.orders|
      ensures ViewAt(Finalize(db, o), p) == if p == o then VFinalize(ViewAt(db, o), o) else ViewAt(db, p)
    {
      FinalizeView(db, o, p);
    }
    ViewsStepKeeps(db, Finalize(db, o));
  }

  // ----- failure and hold expiry -----

  lemma CancelBooks(db: Db, o: OrderId)
    requires Books(db) && o < |db.orders|
    ensures Books(Rollback(MarkFailed(db, o), o))
  {
    hide Books;
    RowsKeepBooks(db, Rollback(MarkFailed(db, o), o));
  }

  lemma CancelView(db: Db, o: OrderId, p: OrderId)
    requires o < |db.orders| && p < |db.orders|
    ensures ViewAt(Rollback(MarkFailed(db, o), o), p) == if p == o then VFail(ViewAt(db, o)) else ViewAt(db, p)
  {
    hide OwnEntries, RefundsOf;
    if p != o {
      assert ViewAt(Rollback(MarkFailed(db, o), o), p) == ViewAt(db, p);
    }
  }

  lemma CancelKeeps(db: Db, o: OrderId)
    requires Inv(db) && o < |db.orders| && db.orders[o].status == Unpaid
    ensures var after := Rollback(MarkFailed(db, o), o);
            Inv(after) && ViewsStep(db, after) && Untouched(db, after, o)
  {
    hide Books, ViewAt, VFail, ViewOk, Rollback, MarkFailed;
    RowOfView(db, o);
    var after := Rollback(MarkFailed(db, o), o);
    CancelBooks(db, o);
    forall p: OrderId | p < |db.orders|
      ensures ViewAt(after, p) == if p == o then VFail(ViewAt(db, o)) else ViewAt(db, p)
    {
      CancelView(db, o, p);
    }
    ViewsStepKeeps(db, after);
  }

  lemma FailOverdueView(db: Db, p: OrderId)
    requires p < |db.orders|
    ensures ViewAt(FailOverdue(db), p) == if Overdue(db.orders[p], db.now) then VFail(ViewAt(db, p)) else ViewAt(db, p)
  {
  }

  lemma FailOverdueKeeps(db: Db)
    requires Inv(db)
    ensures Inv(FailOverdue(db)) && ViewsStep(db, FailOverdue(db))
  {
    hide VFail, ViewOk;
    var after := FailOverdue(db);
    RowsKeepBooks(db, after);
    forall p: OrderId | p < |db.orders| ensures ViewStep(ViewAt(db, p), ViewAt(after, p), p) {
      FailOverdueView(db, p);
    }
    ViewsStepKeeps(db, after);
  }

  lemma ExpireHoldsKeeps(db: Db)
    requires Inv(db)
    ensures Inv(ExpireHolds(db)) && ViewsStep(db, ExpireHolds(db))
  {
    var after := ExpireHolds(db);
    forall p: OrderId | p < |db.orders| ensures ViewStep(ViewAt(db, p), ViewAt(after, p), p) {
      assert ViewAt(after, p) == VExpireHold(ViewAt(db, p), db.now);
    }
    ViewsStepKeeps(db, after);
  }

  // ----- refunds -----

  lemma RecordRefund(db: Db, r: Refund, p: OrderId)
    requires Books(db) && r.id == |db.refunds| && r.order < |db.orders| && p < |db.orders|
    ensures var after := db.(refunds := db.refunds + [r]);
            Books(after)
            && ViewAt(after, p) == if p == r.order then ViewAt(db, p).(refunds := ViewAt(db, p).refunds + [r])
              else ViewAt(db, p)
  {
    RefundsAppend(db.refunds, r, p);
  }

  /** The keys of refund id are not in the log, or only on entries of order o. */
  ghost predicate RefundKeysOf(ledger: seq<Entry>, o: OrderId, id: nat) {
    KeyIsOf(ledger, o, RefundExuKey(id)) && KeyIsOf(ledger, o, RefundCashKey(id))
  }

  /** Books(db), with the keys of refund id reserved for order o. */
  ghost predicate Refunding(db: Db, o: OrderId, id: nat) {
    Books(db) && RefundKeysOf(db.ledger, o, id) && id < |db.refunds| && o < |db.orders|
  }

  lemma OwnPostKeeps(db: Db, user: UserId, tx: TxType, amount: int, o: OrderId, key: Key, id: nat)
    requires amount != 0 && Refunding(db, o, id) && KeyFits(o, key, |db.refunds|)
    requires tx == RefundToWallet || amount < 0
    requires tx == RefundToWallet ==> 0 < amount
    ensures Refunding(Post(db, user, tx, amount, Some(o), Some(key)).db, o, id)
  {
    PostKeepsBooks(db, user, tx, amount, Some(o), Some(key));
  }

  lemma ReverseCashbackKeeps(db: Db, o: OrderId, id: nat)
    requires Refunding(db, o, id)
    ensures Refunding(ReverseCashback(db, o), o, id)
  {
    hide Books, Post, KeyIsOf, FindKey, RefundKeysOf;
    var order := db.orders[o];
    if 0 < order.cashback && !order.cashbackReversed {
      OwnPostKeeps(db, order.user, OrderCashbackReversal, Minus(order.cashback), o, CashbackReversalKey(o), id);
      RowsKeepBooks(Post(db, order.user, OrderCashbackReversal, Minus(order.cashback), Some(o),
                         Some(CashbackReversalKey(o))).db,
                    ReverseCashback(db, o));
    }
  }

  lemma ReverseCashbackView(db: Db, o: OrderId, p: OrderId)
    requires Shapes(db) && o < |db.orders| && p < |db.orders|
    ensures ViewAt(ReverseCashback(db, o), p) == if p == o then VReverseCashback(ViewAt(db, o), o) else ViewAt(db, p)
  {
    var order := db.orders[o];
    if 0 < order.cashback && !order.cashbackReversed {
      PostView(db, order.user, OrderCashbackReversal, Minus(order.cashback), o, CashbackReversalKey(o), p);
    }
  }

  lemma ReverseReferralKeeps(db: Db, o: OrderId, id: nat)
    requires Refunding(db, o, id)
    ensures Refunding(ReverseReferral(db, o), o, id)
  {
    hide Books, Post, KeyIsOf, FindKey, RefundKeysOf;
    if o in db.referrals {
      var referral := db.referrals[o];
      if referral.status == Credited && referral.reversalTx.None? {
        OwnPostKeeps(db, referral.referrer, ReferralRewardReversal, Minus(referral.reward), o, RewardReversalKey(o),
                     id);
        PostNames(db, referral.referrer, ReferralRewardReversal, Minus(referral.reward), Some(o),
                  Some(RewardReversalKey(o)));
        RowsKeepBooks(Post(db, referral.referrer, ReferralRewardReversal, Minus(referral.reward), Some(o),
                           Some(RewardReversalKey(o))).db,
                      ReverseReferral(db, o));
      } else {
        RowsKeepBooks(db, ReverseReferral(db, o));
      }
    }
  }

  lemma ReverseReferralView(db: Db, o: OrderId, p: OrderId)
    requires Shapes(db) && o < |db.orders| && p < |db.orders|
    ensures ViewAt(ReverseReferral(db, o), p) == if p == o then VReverseReferral(ViewAt(db, o), o) else ViewAt(db, p)
  {
    if o in db.referrals {
      var referral := db.referrals[o];
      if referral.status == Credited && referral.reversalTx.None? {
        PostView(db, referral.referrer, ReferralRewardReversal, Minus(referral.reward), o, RewardReversalKey(o), p);
      }
    }
  }

  lemma ReturnKeeps(db: Db, user: UserId, amount: int, o: OrderId, key: Key, id: nat)
    requires Refunding(db, o, id) && RefundKey(key) && key.refund == id
    ensures Refunding(ReturnToWallet(db, user, amount, o, key), o, id)
  {
    if 0 < amount {
      OwnPostKeeps(db, user, RefundToWallet, amount, o, key, id);
    }
  }

  lemma ReturnView(db: Db, user: UserId, amount: int, o: OrderId, key: Key, p: OrderId)
    requires RefundKey(key) && key.refund < |db.refunds|
    requires Shapes(db) && RefundKeysOf(db.ledger, o, key.refund) && o < |db.orders| && p < |db.orders|
    ensures ViewAt(ReturnToWallet(db, user, amount, o, key), p)
         == if p == o then VReturn(ViewAt(db, o), user, amount, key) else ViewAt(db, p)
  {
    if 0 < amount {
      PostView(db, user, RefundToWallet, amount, o, key, p);
    }
  }

  function Reversals(db: Db, o: OrderId): (r: Db)
    requires o < |db.orders|
    ensures |r.orders| == |db.orders|
  {
    ReverseReferral(ReverseCashback(db, o), o)
  }

  function Returns(db: Db, order: Order, r: Refund): (d: Db)
    ensures |d.orders| == |db.orders|
  {
    ReturnToWallet(ReturnToWallet(db, order.user, ExuShare(order, r.amount), r.order, RefundExuKey(r.id)),
                   order.user, CashShare(order, r), r.order, RefundCashKey(r.id))
  }

  lemma ReversalsKeep(db: Db, o: OrderId, id: nat, p: OrderId)
    requires Refunding(db, o, id) && p < |db.orders|
    ensures Refunding(Reversals(db, o), o, id)
    ensures ViewAt(Reversals(db, o), p) == if p == o then VReverse(ViewAt(db, o), o) else ViewAt(db, p)
  {
    ReverseCashbackKeeps(db, o, id);
    ReverseCashbackView(db, o, p);
    ReverseCashbackView(db, o, o);
    ReverseReferralKeeps(ReverseCashback(db, o), o, id);
    ReverseReferralView(ReverseCashback(db, o), o, p);
  }

  function VReturns(v: View, order: Order, r: Refund): View {
    VReturn(VReturn(v, order.user, ExuShare(order, r.amount), RefundExuKey(r.id)),
            order.user, CashShare(order, r), RefundCashKey(r.id))
  }

  lemma ReturnsKeep(db: Db, order: Order, r: Refund, p: OrderId)
    requires Refunding(db, r.order, r.id) && p < |db.orders|
    ensures Refunding(Returns(db, order, r), r.order, r.id)
    ensures ViewAt(Returns(db, order, r), p) == if p == r.order then VReturns(ViewAt(db, r.order), order, r)
            else ViewAt(db, p)
  {
    var exu := ExuShare(order, r.amount);
    ReturnKeeps(db, order.user, exu, r.order, RefundExuKey(r.id), r.id);
    ReturnView(db, order.user, exu, r.order, RefundExuKey(r.id), p);
    ReturnView(db, order.user, exu, r.order, RefundExuKey(r.id), r.order);
    var d := ReturnToWallet(db, order.user, exu, r.order, RefundExuKey(r.id));
    ReturnKeeps(d, order.user, CashShare(order, r), r.order, RefundCashKey(r.id), r.id);
    ReturnView(d, order.user, CashShare(order, r), r.order, RefundCashKey(r.id), p);
  }

  function Close(db: Db, o: OrderId, refunded: int): (r: Db)
    requires o < |db.orders|
    ensures |r.orders| == |db.orders|
  {
    db.(orders := db.orders[o := db.orders[o].(status := Refunded, refunded := refunded)])
  }

  function RefundRun(db: Db, o: OrderId, r: Refund): (d: Db)
    requires o < |db.orders|
    ensures |d.orders| == |db.orders|
  {
    var order := db.orders[o];
    Close(Returns(Reversals(db.(refunds := db.refunds + [r]), o), order, r), o, order.refunded + r.amount)
  }

  lemma CloseKeeps(db: Db, o: OrderId, refunded: int, p: OrderId)
    requires Books(db) && o < |db.orders| && p < |db.orders|
    ensures Books(Close(db, o, refunded))
    ensures ViewAt(Close(db, o, refunded), p) ==
            if p == o then ViewAt(db, o).(order := ViewAt(db, o).order.(status := Refunded, refunded := refunded))
               else ViewAt(db, p)
  {
    RowsKeepBooks(db, Close(db, o, refunded));
  }

  lemma RefundOpens(db: Db, r: Refund, p: OrderId)
    requires Books(db) && r.id == |db.refunds| && r.order < |db.orders| && p < |db.orders|
    ensures var after := db.(refunds := db.refunds + [r]);
            Refunding(after, r.order, r.id)
            && ViewAt(after, p) == if p == r.order then ViewAt(db, p).(refunds := ViewAt(db, p).refunds + [r])
              else ViewAt(db, p)
  {
    RecordRefund(db, r, p);
  }

  lemma RefundRunBooks(db: Db, o: OrderId, r: Refund)
    requires Books(db) && o < |db.orders| && r.id == |db.refunds| && r.order == o
    ensures Books(RefundRun(db, o, r))
  {
    hide Books, ViewAt, Returns, Reversals, RefundKeysOf;
    var order := db.orders[o];
    RefundOpens(db, r, o);
    var d1 := db.(refunds := db.refunds + [r]);
    ReversalsKeep(d1, o, r.id, o);
    ReturnsKeep(Reversals(d1, o), order, r, o);
    CloseKeeps(Returns(Reversals(d1, o), order, r), o, order.refunded + r.amount, o);
  }

  lemma RefundRunView(db: Db, o: OrderId, r: Refund, p: OrderId)
    requires Books(db) && o < |db.orders| && p < |db.orders| && r.id == |db.refunds| && r.order == o
    ensures ViewAt(RefundRun(db, o, r), p) == if p == o then VRefund(ViewAt(db, o), o, r) else ViewAt(db, p)
  {
    hide Books, ViewAt, Returns, Reversals, RefundKeysOf, VReturns, VReverse, VRefund;
    RowOfView(db, o);
    var order := db.orders[o];
    RefundOpens(db, r, p);
    var d1 := db.(refunds := db.refunds + [r]);
    ReversalsKeep(d1, o, r.id, p);
    var d3 := Reversals(d1, o);
    ReturnsKeep(d3, order, r, p);
    CloseKeeps(Returns(d3, order, r), o, order.refunded + r.amount, p);
    if p == o {
      VRefundParts(ViewAt(db, o), o, order, r);
    }
  }

  lemma VRefundParts(v: View, o: OrderId, order: Order, r: Refund)
    requires order == v.order.(cashbackTx := order.cashbackTx)
    ensures var w := VReturns(VReverse(v.(refunds := v.refunds + [r]), o), order, r);
            VRefund(v, o, r) == w.(order := w.order.(status := Refunded, refunded := order.refunded + r.amount))
  {
  }

  lemma {:induction false} RefundIds(refunds: seq<Refund>, o: OrderId, id: nat)
    requires forall i :: 0 <= i < |refunds| ==> refunds[i].id < id
    ensures forall i :: 0 <= i < |RefundsOf(refunds, o)| ==> RefundsOf(refunds, o)[i].id < id
  {
    if |refunds| > 0 {
      RefundIds(refunds[..|refunds| - 1], o, id);
    }
  }

  lemma RefundIsRun(db: Db, o: OrderId, amount: int, mode: RefundMode)
    requires o < |db.orders| && RefundOrder(db, o, amount, mode).Ok?
    ensures 0 <= amount && db.orders[o].status in {Paid, Refunded}
            && db.orders[o].refunded + amount <= OrderValue(db.orders[o])
    ensures RefundOrder(db, o, amount, mode).value == RefundRun(db, o, Refund(|db.refunds|, o, amount, mode))
  {
    hide ReverseCashback, ReverseReferral, Post, ExuShare;
  }

  lemma RefundIsAllowed(db: Db, o: OrderId, r: Refund)
    requires Shapes(db) && o < |db.orders| && r.id == |db.refunds|
    requires db.orders[o].status in {Paid, Refunded} && db.orders[o].refunded + r.amount <= OrderValue(db.orders[o])
    ensures RefundAllowed(ViewAt(db, o), r)
  {
    RefundIds(db.refunds, o, |db.refunds|);
    hide OwnEntries, RefundsOf;
  }

  lemma RefundKeeps(db: Db, o: OrderId, amount: int, mode: RefundMode)
    requires Inv(db) && o < |db.orders| && RefundOrder(db, o, amount, mode).Ok?
    ensures var after := RefundOrder(db, o, amount, mode).value;
            Inv(after) && ViewsStep(db, after) && Untouched(db, after, o)
  {
    BooksShapes(db);
    RefundIsRun(db, o, amount, mode);
    var r := Refund(|db.refunds|, o, amount, mode);
    RefundIsAllowed(db, o, r);
    hide Shapes, Books, RefundRun, RefundOrder, RefundAllowed, ViewAt, ViewOk, VRefund;
    var after := RefundRun(db, o, r);
    forall p: OrderId | p < |db.orders|
      ensures ViewAt(after, p) == if p == o then VRefund(ViewAt(db, o), o, r) else ViewAt(db, p)
    {
      RefundRunView(db, o, r, p);
    }
    RefundRunBooks(db, o, r);
    ViewsStepKeeps(db, after);
  }

  // ----- operations outside any order -----

  lemma PlainPostKeeps(db: Db, user: UserId, tx: TxType, amount: int, key: Option<Key>)
    requires Inv(db) && amount != 0 && Expirable(db, user, tx, amount, key)
    requires key.Some? ==> key.value.ExpiryKey?
    ensures var after := Post(db, user, tx, amount, None, key).db;
            Inv(after) && ViewsStep(db, after)
  {
    hide LedgerOk, ExpiryOk, Shapes, IdsOk, OneLiveReferral, ViewAt, ViewOk, VFinalize, VFail, VRefund, Post;
    var after := Post(db, user, tx, amount, None, key).db;
    PostKeepsBooks(db, user, tx, amount, None, key);
    forall p: OrderId | p < |db.orders| ensures ViewAt(after, p) == ViewAt(db, p) {
      PlainPostView(db, user, tx, amount, key, p);
    }
    ViewsStepKeeps(db, after);
  }

  /** Same rows and entries for every order; only wallets' status, the profiles or the clock may differ. */
  predicate SameOrders(db: Db, after: Db) {
    after.ledger == db.ledger && after.holds == db.holds && after.referrals == db.referrals
    && after.orders == db.orders && after.refunds == db.refunds
  }

  lemma SideStepKeeps(db: Db, after: Db)
    requires Inv(db) && SameOrders(db, after) && db.now <= after.now
    requires db.wallets.Keys <= after.wallets.Keys
    requires forall u :: u in after.wallets ==>
               after.wallets[u].balance == WalletOf(db.wallets, u).balance
                 && after.wallets[u].expiresAt == WalletOf(db.wallets, u).expiresAt
    ensures Inv(after) && ViewsStep(db, after)
    ensures forall p: OrderId :: p < |db.orders| ==> ViewAt(after, p) == ViewAt(db, p)
  {
    assert BalancesAreTotals(after.wallets, after.ledger);
    assert ExpiryOk(after.wallets, after.ledger, after.now);
    assert Shapes(after) && IdsOk(after);
    forall p: OrderId | p < |db.orders| ensures ViewAt(after, p) == ViewAt(db, p) {}
    ViewsStepKeeps(db, after);
  }

  lemma AdjustKeeps(db: Db, user: UserId, amount: int)
    requires Inv(db)
    ensures Inv(Adjust(db, user, amount)) && ViewsStep(db, Adjust(db, user, amount))
  {
    hide Books, ViewAt, ViewOk, Post;
    if amount != 0 {
      PlainPostKeeps(db, user, if 0 < amount then ManualCredit else ManualDebit, amount, None);
    }
  }

  lemma CancelBalanceKeeps(db: Db, user: UserId)
    requires Inv(db)
    ensures Inv(CancelBalance(db, user)) && ViewsStep(db, CancelBalance(db, user))
  {
    hide Books, ViewAt, ViewStep, ViewOk, Post;
    var touched := TouchWallet(db, user);
    SideStepKeeps(db, touched);
    if touched.wallets[user].balance != 0 {
      PlainPostKeeps(touched, user, ManualCancel, -touched.wallets[user].balance, None);
      ViewsStepTwice(db, touched, CancelBalance(db, user));
    }
  }

  lemma ViewsStepTwice(db: Db, mid: Db, after: Db)
    requires |mid.orders| == |db.orders| && ViewsStep(mid, after)
    requires forall p: OrderId :: p < |db.orders| ==> ViewAt(mid, p) == ViewAt(db, p)
    ensures ViewsStep(db, after)
  {
  }

  // ----- the expiry job -----

  /** The heart of the expiry job: a wallet that still has money never meets its own used key. */
  lemma ExpiryKeyIsUnused(db: Db, user: UserId)
    requires ExpiryOk(db.wallets, db.ledger, db.now)
    requires user in db.wallets && 0 < db.wallets[user].balance
    ensures FindKey(db.ledger, ExpiryKey(user, db.wallets[user].expiresAt)).None?
  {
  }

  /** A wallet after the job: positive balances are gone, everything else is as it was. */
  function Emptied(row: Wallet): Wallet {
    row.(balance := Pricing.Min(0, row.balance))
  }

  lemma ExpireRowEmpties(db: Db, user: UserId, row: Wallet)
    requires ExpiryOk(db.wallets, db.ledger, db.now)
    requires user in db.wallets && db.wallets[user] == row && Expired(row, db.now)
    ensures var after := ExpireRow(db, user, row);
            && after.wallets.Keys == db.wallets.Keys
            && (forall u :: u in db.wallets && u != user ==> after.wallets[u] == db.wallets[u])
            && after.wallets[user] == Emptied(row)
  {
    if 0 < row.balance {
      ExpiryKeyIsUnused(db, user);
    }
  }

  lemma ExpireRowKeeps(db: Db, user: UserId, row: Wallet)
    requires Inv(db) && user in db.wallets && db.wallets[user] == row && Expired(row, db.now)
    ensures Inv(ExpireRow(db, user, row))
  {
    hide Books, ViewAt, ViewStep, ViewOk, Post, FindKey;
    if 0 < row.balance {
      PlainPostKeeps(db, user, ExpiryDebit, -row.balance, Some(ExpiryKey(user, row.expiresAt)));
    }
  }

  lemma ExpireRowView(db: Db, user: UserId, row: Wallet)
    requires Shapes(db)
    ensures var after := ExpireRow(db, user, row);
            && after.now == db.now && |after.orders| == |db.orders|
            && (forall p: OrderId :: p < |db.orders| ==> ViewAt(after, p) == ViewAt(db, p))
  {
    if 0 < row.balance {
      forall p: OrderId | p < |db.orders| ensures ViewAt(ExpireRow(db, user, row), p) == ViewAt(db, p) {
        PlainPostView(db, user, ExpiryDebit, -row.balance, Some(ExpiryKey(user, row.expiresAt)), p);
      }
    }
  }

  /** The row read for this user at the start of the job is still its current row. */
  predicate IsRow(db: Db, user: UserId, rows: map<UserId, Wallet>) {
    user in rows && user in db.wallets && db.wallets[user] == rows[user] && Expired(rows[user], db.now)
  }

  lemma {:induction false} ExpireRowsKeep(db: Db, users: seq<UserId>, rows: map<UserId, Wallet>)
    requires Inv(db)
    requires forall i, j :: 0 <= i < j < |users| ==> users[i] != users[j]
    requires forall i :: 0 <= i < |users| ==> users[i] in rows && IsRow(db, users[i], rows)
    ensures var after := ExpireRows(db, users, rows);
            && Inv(after) && after.now == db.now && |after.orders| == |db.orders|
            && (forall p: OrderId :: p < |db.orders| ==> ViewAt(after, p) == ViewAt(db, p))
            && after.wallets.Keys == db.wallets.Keys
            && (forall u :: u in db.wallets && u !in users ==> after.wallets[u] == db.wallets[u])
            && (forall u :: u in users ==> u in after.wallets && after.wallets[u] == Emptied(rows[u]))
    decreases |users|
  {
    if |users| > 0 {
      var user := users[0];
      ExpireRowKeeps(db, user, rows[user]);
      ExpireRowEmpties(db, user, rows[user]);
      ExpireRowView(db, user, rows[user]);
      var next := ExpireRow(db, user, rows[user]);
      ExpireRowsKeep(next, users[1..], rows);
      forall u | u in users
        ensures u in ExpireRows(db, users, rows).wallets && ExpireRows(db, users, rows).wallets[u] == Emptied(rows[u])
      {
        if u != user {
          assert u in users[1..];
        }
      }
    }
  }

  // ----- checkout -----

  lemma NewViewIsEmpty(db: Db)
    requires Shapes(db)
    ensures OwnEntries(db.ledger, |db.orders|) == [] && RefundsOf(db.refunds, |db.orders|) == []
    ensures |db.orders| !in db.holds && |db.orders| !in db.referrals
  {
    NoOwnEntries(db.ledger, |db.orders|);
    NoRefunds(db.refunds, |db.orders|);
  }

  /** The three writes of createPendingOrder: the order, perhaps a referral, perhaps a hold. */
  predicate Opened(db: Db, after: Db, order: Order) {
    var id := |db.orders|;
    && after.now == db.now && after.ledger == db.ledger && after.refunds == db.refunds
    && after.orders == db.orders + [order]
    && order.status == Unpaid && order.cashbackTx.None? && !order.cashbackReversed && order.refunded == 0
    && OrderValue(order) == Pricing.Max(0, order.subtotal - order.couponDiscount - order.referralDiscount)
    && (after.holds == db.holds
        || (id in after.holds && after.holds == db.holds[id := after.holds[id]]
            && after.holds[id].user == order.user && after.holds[id].amount == order.walletSpent
            && after.holds[id].status == Held))
    && order.referralDiscount in {0, REFERRAL_DISCOUNT}
    && (if order.referralDiscount == 0 then after.referrals == db.referrals
        else id in after.referrals && after.referrals == db.referrals[id := after.referrals[id]]
             && after.referrals[id]
                == Referral(after.referrals[id].referrer, order.user, REFERRAL_REWARD, Pending, None, None)
             && after.referrals[id].referrer != order.user
             && forall o :: o in db.referrals && Live(db.referrals[o]) ==> db.referrals[o].referee != order.user)
    && (after.wallets == db.wallets
        || after.wallets == db.wallets[order.user := WalletOf(db.wallets, order.user)])
  }

  lemma OpenedBooks(db: Db, after: Db, order: Order)
    requires Books(db) && Opened(db, after, order)
    ensures Books(after)
  {
    assert BalancesAreTotals(after.wallets, after.ledger);
    assert LedgerOk(after.wallets, after.ledger);
    assert ExpiryOk(after.wallets, after.ledger, after.now);
    assert Shapes(after);
    assert IdsOk(after);
    assert OneLiveReferral(after.referrals);
  }

  lemma OpenedViews(db: Db, after: Db, order: Order)
    requires Inv(db) && Opened(db, after, order)
    ensures ViewsOk(after) && ViewsStep(db, after)
  {
    hide LedgerOk, ExpiryOk, Shapes, IdsOk, OneLiveReferral, OwnEntries, RefundsOf;
    var id := |db.orders|;
    NewViewIsEmpty(db);
    assert ViewOk(ViewAt(after, id), id);
    forall p: OrderId | p < id ensures ViewAt(after, p) == ViewAt(db, p) {}
  }

  /** An accepted code belongs to somebody else, and the buyer has no live referral yet. */
  lemma ReferralAccepted(db: Db, user: UserId, req: CheckoutRequest)
    requires ReferralFor(db, user, req).Ok? && ReferralFor(db, user, req).value.Some?
    ensures ReferralFor(db, user, req).value.value != user
    ensures forall o :: o in db.referrals && Live(db.referrals[o]) ==> db.referrals[o].referee != user
  {
  }

  lemma HoldCreated(db: Db, o: OrderId, user: UserId, amount: pos)
    requires o !in db.holds && CreateHold(db, o, user, amount).Ok?
    ensures var after := CreateHold(db, o, user, amount).value;
            && o in after.holds
            && after == db.(wallets := db.wallets[user := WalletOf(db.wallets, user)],
                            holds := db.holds[o := Hold(user, amount, Held, after.holds[o].expiresAt)])
  {
  }

  lemma NewOrderRow(user: UserId, req: CheckoutRequest, referred: bool, now: Millis)
    ensures var order := NewOrder(user, req, referred, now);
            && order.user == user && order.status == Unpaid && order.cashbackTx.None? && !order.cashbackReversed
            && order.refunded == 0 && order.referralDiscount == (if referred then REFERRAL_DISCOUNT else 0)
            && OrderValue(order) == Pricing.Max(0, order.subtotal - order.couponDiscount - order.referralDiscount)
  {
  }

  /** Whatever createPendingOrder answers, it has written nothing or opened one order for the buyer. */
  predicate OpenedOne(db: Db, after: Db, user: UserId) {
    |after.orders| == |db.orders| + 1 && after.orders[|db.orders|].user == user
      && Opened(db, after, after.orders[|db.orders|])
  }

  lemma OpenSteps(db: Db, user: UserId, req: CheckoutRequest, referrer: Option<UserId>)
    requires |db.orders| !in db.holds && |db.orders| !in db.referrals
    requires referrer.Some? ==> referrer.value != user
                                && forall o :: o in db.referrals && Live(db.referrals[o]) ==>
                                  db.referrals[o].referee != user
    ensures var order := NewOrder(user, req, referrer.Some?, db.now);
            var d1 := db.(orders := db.orders + [order]);
            var d2 := if referrer.Some? then CreateReferral(d1, |db.orders|, user, referrer.value) else d1;
            && OpenedOne(db, d2, user)
            && (0 < order.walletSpent && CreateHold(d2, |db.orders|, user, order.walletSpent).Ok? ==>
                  OpenedOne(db, CreateHold(d2, |db.orders|, user, order.walletSpent).value, user))
  {
    NewOrderRow(user, req, referrer.Some?, db.now);
    var order := NewOrder(user, req, referrer.Some?, db.now);
    hide NewOrder, CreateHold, WalletOf, OrderValue, Pricing.Max, Live;
    var d1 := db.(orders := db.orders + [order]);
    var d2 := if referrer.Some? then CreateReferral(d1, |db.orders|, user, referrer.value) else d1;
    if 0 < order.walletSpent && CreateHold(d2, |db.orders|, user, order.walletSpent).Ok? {
      HoldCreated(d2, |db.orders|, user, order.walletSpent);
    }
  }

  lemma PlaceOrderOpens(db: Db, user: UserId, req: CheckoutRequest)
    requires Shapes(db)
    ensures var r := PlaceOrder(db, user, req);
            (r.db == db && r.Refused?) || OpenedOne(db, r.db, user)
  {
    hide OpenedOne, Shapes, OwnEntries, RefundsOf, CreateHold, CreateReferral, ReferralFor, NewOrder;
    NewViewIsEmpty(db);
    var referrer := ReferralFor(db, user, req);
    if referrer.Ok? {
      if referrer.value.Some? {
        ReferralAccepted(db, user, req);
      }
      OpenSteps(db, user, req, referrer.value);
    }
  }

  lemma PlaceOrderKeeps(db: Db, user: UserId, req: CheckoutRequest)
    requires Inv(db)
    ensures var r := PlaceOrder(db, user, req);
            && Inv(r.db) && ViewsStep(db, r.db)
            && (r.Placed? ==> r.db.orders[r.id].status == Unpaid)
  {
    PlaceOrderOpens(db, user, req);
    var r := PlaceOrder(db, user, req);
    if !(r.db == db && r.Refused?) {
      var order := r.db.orders[|db.orders|];
      OpenedBooks(db, r.db, order);
      OpenedViews(db, r.db, order);
    }
  }

  /** Paying the order just placed leaves the earlier ones where placing left them. */
  lemma PayNewKeeps(db: Db, placed: Db)
    requires Inv(placed) && ViewsStep(db, placed) && |placed.orders| == |db.orders| + 1
    requires placed.orders[|db.orders|].status == Unpaid
    ensures Inv(Finalize(placed, |db.orders|)) && ViewsStep(db, Finalize(placed, |db.orders|))
  {
    hide Books, ViewAt, ViewOk, Finalize, VFinalize, VFail, VRefund;
    FinalizeKeeps(placed, |db.orders|);
  }

  lemma CheckoutKeeps(db: Db, user: UserId, req: CheckoutRequest)
    requires Inv(db)
    ensures Inv(Checkout(db, user, req).db) && ViewsStep(db, Checkout(db, user, req).db)
  {
    hide Books, ViewOk, ViewStep, Finalize, PlaceOrder;
    PlaceOrderKeeps(db, user, req);
    var r := PlaceOrder(db, user, req);
    if r.Placed? {
      PayNewKeeps(db, r.db);
    }
  }

  lemma ManualOrderKeeps(db: Db, user: UserId, subtotal: int)
    requires Inv(db)
    ensures Inv(ManualOrder(db, user, subtotal).db) && ViewsStep(db, ManualOrder(db, user, subtotal).db)
  {
    hide Books, ViewOk, ViewStep, Finalize, PlaceOrder;
    var req := CheckoutRequest(subtotal, None, None, 0);
    PlaceOrderKeeps(db, user, req);
    var r := PlaceOrder(db, user, req);
    if r.Placed? {
      PayNewKeeps(db, r.db);
    }
  }

  lemma OrderIpnKeeps(db: Db, o: OrderId, success: bool)
    requires Inv(db) && o < |db.orders|
    ensures var after := OrderIpn(db, o, success);
            Inv(after) && ViewsStep(db, after) && Untouched(db, after, o)
  {
    if db.orders[o].status == Unpaid {
      if success {
        FinalizeKeeps(db, o);
      } else {
        CancelKeeps(db, o);
      }
    }
  }
}
