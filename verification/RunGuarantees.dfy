/** What holds of every run: the ledger is the balance, expired money is gone after the nightly job,
    and statuses only move forward. */
module RunGuarantees {
  import opened Domain
  import opened Ledger
  import opened Wallets
  import opened Orders
  import opened OrderView
  import opened Statements
  import opened Invariant
  import opened Runs

  // ----- the ledger -----

  /** After any run: a wallet's balance is the sum of its owner's entries, every entry shows its owner's running
      total, no idempotency key occurs twice, and an owner without a wallet has no entries. */
  lemma {:induction false} RunLedger(start: Millis, steps: seq<Step>, user: UserId)
    ensures var db := Run(EmptyDb(start), steps);
            && WalletOf(db.wallets, user).balance == Total(db.ledger, user)
            && (forall i :: 0 <= i < |db.ledger| ==>
                  db.ledger[i].balanceAfter == Total(db.ledger[..i + 1], db.ledger[i].user))
            && (forall i, j :: 0 <= i < j < |db.ledger| && db.ledger[i].key.Some? ==>
                db.ledger[i].key != db.ledger[j].key)
  {
    RunInvariant(start, steps);
  }

  // ----- the expiry job -----

  /** Whenever the job runs, and however often it ran before, every active wallet past its expiry ends without money:
      the job's own idempotency key never stands in its way. Everybody else keeps their wallet. */
  lemma {:induction false} ExpiryJobEmpties(start: Millis, steps: seq<Step>, users: seq<UserId>, user: UserId)
    requires ListsExpired(Run(EmptyDb(start), steps), users)
    ensures var db := Run(EmptyDb(start), steps);
            var after := Apply(db, ExpireBalances(users));
            && after.wallets.Keys == db.wallets.Keys
            && (user in db.wallets && Expired(db.wallets[user], db.now) ==>
                after.wallets[user] == Emptied(db.wallets[user]))
            && (user in db.wallets && !Expired(db.wallets[user], db.now) ==> after.wallets[user] == db.wallets[user])
  {
    RunInvariant(start, steps);
    var db := Run(EmptyDb(start), steps);
    hide Run, Inv, ViewAt, ExpireRows;
    ExpireRowsKeep(db, users, db.wallets);
  }

  // ----- statuses only move forward -----

  predicate CanBecome(a: OrderStatus, b: OrderStatus) {
    a == b || a == Unpaid || (a == Paid && b == Refunded)
  }

  predicate HoldNext(a: Hold, b: Hold) {
    b.user == a.user && b.amount == a.amount && b.expiresAt == a.expiresAt && (a.status != Held ==> b == a)
  }

  predicate ReferralForward(a: Referral, b: Referral) {
    && b.referrer == a.referrer && b.referee == a.referee && b.reward == a.reward
    && (b.status == a.status || a.status == Pending || (a.status == Credited && b.status == Reversed))
  }

  /** An order's prices never change, its status, hold and referral only move forward, a hold that left HELD
      never changes again, and its entries and refunds are only added to. */
  predicate ViewForward(v: View, w: View) {
    && w.order == v.order.(status := w.order.status, cashbackTx := w.order.cashbackTx,
                           cashbackReversed := w.order.cashbackReversed, refunded := w.order.refunded)
    && CanBecome(v.order.status, w.order.status)
    && v.order.refunded <= w.order.refunded
    && (v.hold.Some? <==> w.hold.Some?) && (v.hold.Some? ==> HoldNext(v.hold.value, w.hold.value))
    && (v.referral.Some? <==> w.referral.Some?)
      && (v.referral.Some? ==> ReferralForward(v.referral.value, w.referral.value))
    && v.own <= w.own && v.refunds <= w.refunds
  }

  lemma ViewForwardTwice(u: View, v: View, w: View)
    requires ViewForward(u, v) && ViewForward(v, w)
    ensures ViewForward(u, w)
  {
  }

  lemma FinalizeForward(v: View, o: OrderId)
    requires ViewOk(v, o) && v.order.status == Unpaid
    ensures ViewForward(v, VFinalize(v, o))
  {
    var v0 := v.(order := v.order.(status := Paid));
    VCaptureAdds(v0, o);
    var v1 := VCapture(v0, o);
    VCashbackAdds(v1, o);
    VRewardAdds(VCashbackMark(VCashback(v1, o), o), o);
    hide VCapture, VCashback, VCashbackMark, VReward, VRewardMark;
  }

  lemma RefundForward(v: View, o: OrderId, r: Refund)
    requires ViewOk(v, o) && RefundAllowed(v, r)
    ensures ViewForward(v, VRefund(v, o, r))
  {
    ReversalStatement(v, o);
    VRefundAdds(v, o, r);
    hide VRefund, VReverse, RefundEntry, RefundEntries, PaidEntries, ReversalEntries;
  }

  lemma ViewStepForward(v: View, w: View, o: OrderId)
    requires ViewOk(v, o) && ViewStep(v, w, o)
    ensures ViewForward(v, w)
  {
    hide ViewOk, VFinalize, VRefund;
    if w == v {
    } else if exists now :: w == VExpireHold(v, now) {
    } else if exists r :: RefundAllowed(v, r) && w == VRefund(v, o, r) {
      var r :| RefundAllowed(v, r) && w == VRefund(v, o, r);
      RefundForward(v, o, r);
    } else if v.order.status == Unpaid && w == VFinalize(v, o) {
      FinalizeForward(v, o);
    }
  }

  ghost predicate Forward(db: Db, after: Db) {
    && |db.orders| <= |after.orders|
    && db.ledger <= after.ledger
    && forall o: OrderId :: o < |db.orders| ==> ViewForward(ViewAt(db, o), ViewAt(after, o))
  }

  lemma {:induction false} ExpireRowsAppend(db: Db, users: seq<UserId>, rows: map<UserId, Wallet>)
    requires forall i :: 0 <= i < |users| ==> users[i] in rows
    ensures db.ledger <= ExpireRows(db, users, rows).ledger
    decreases |users|
  {
    if |users| > 0 {
      ExpireRowsAppend(ExpireRow(db, users[0], rows[users[0]]), users[1..], rows);
    }
  }

  lemma RefundAppends(db: Db, o: OrderId, amount: int, mode: RefundMode)
    requires o < |db.orders| && RefundOrder(db, o, amount, mode).Ok?
    ensures db.ledger <= RefundOrder(db, o, amount, mode).value.ledger
  {
    hide ReverseCashback, ReverseReferral, ReturnToWallet, ExuShare;
  }

  lemma StepAppends(db: Db, step: Step)
    ensures db.ledger <= Apply(db, step).ledger
  {
    hide Finalize, Post, ReferralFor, NewOrder, CreateHold, RefundOrder, ListsExpired, ExpireRows;
    match step {
      case PlaceCheckout(user, req) => PlaceAppends(db, user, req);
      case PlaceDirect(user, req) => PlaceAppends(db, user, req);
      case PlaceManual(user, subtotal) => PlaceAppends(db, user, CheckoutRequest(subtotal, None, None, 0));
      case ExpireBalances(users) =>
        if ListsExpired(db, users) {
          ListedRows(db, users);
          ExpireRowsAppend(db, users, db.wallets);
        }
      case RefundPaid(o, amount, mode) =>
        if o < |db.orders| && RefundOrder(db, o, amount, mode).Ok? {
          RefundAppends(db, o, amount, mode);
        }
      case _ =>
    }
  }

  lemma ListedRows(db: Db, users: seq<UserId>)
    requires ListsExpired(db, users)
    ensures forall i :: 0 <= i < |users| ==> users[i] in db.wallets
  {
  }

  lemma PlaceAppends(db: Db, user: UserId, req: CheckoutRequest)
    ensures PlaceOrder(db, user, req).db.ledger == db.ledger
  {
    hide ReferralFor, NewOrder;
  }

  lemma StepForward(db: Db, step: Step)
    requires Inv(db)
    ensures Forward(db, Apply(db, step))
  {
    StepKeeps(db, step);
    StepAppends(db, step);
    hide Apply, Books, ViewAt, ViewOk, ViewStep, ViewForward;
    forall o: OrderId | o < |db.orders| ensures ViewForward(ViewAt(db, o), ViewAt(Apply(db, step), o)) {
      ViewStepForward(ViewAt(db, o), ViewAt(Apply(db, step), o), o);
    }
  }

  lemma ViewForwardSame(v: View)
    ensures ViewForward(v, v)
  {
  }

  lemma {:induction false} RunForward(db: Db, steps: seq<Step>)
    requires Inv(db)
    ensures Inv(Run(db, steps)) && Forward(db, Run(db, steps))
  {
    RunKeeps(db, steps);
    hide Inv, Apply, ViewAt, ViewForward;
    if |steps| == 0 {
      forall o: OrderId | o < |db.orders| ensures ViewForward(ViewAt(db, o), ViewAt(db, o)) {
        ViewForwardSame(ViewAt(db, o));
      }
    } else {
      var last := |steps| - 1;
      var mid := Run(db, steps[..last]);
      RunForward(db, steps[..last]);
      StepForward(mid, steps[last]);
      var after := Run(db, steps);
      forall o: OrderId | o < |db.orders| ensures ViewForward(ViewAt(db, o), ViewAt(after, o)) {
        ViewForwardTwice(ViewAt(db, o), ViewAt(mid, o), ViewAt(after, o));
      }
    }
  }

  lemma {:induction false} RunSplits(db: Db, first: seq<Step>, more: seq<Step>)
    ensures Run(db, first + more) == Run(Run(db, first), more)
  {
    if |more| == 0 {
      assert first + more == first;
    } else {
      assert (first + more)[..|first + more| - 1] == first + more[..|more| - 1];
      RunSplits(db, first, more[..|more| - 1]);
    }
  }

  /** Between any two moments of a run, orders, holds and referrals have only moved forward and the log only grew. */
  lemma {:induction false} RunOnlyForward(start: Millis, first: seq<Step>, more: seq<Step>)
    ensures Forward(Run(EmptyDb(start), first), Run(EmptyDb(start), first + more))
  {
    RunInvariant(start, first);
    RunForward(Run(EmptyDb(start), first), more);
    RunSplits(EmptyDb(start), first, more);
  }

  // ----- a paid order took its money -----

  /** When a payment notice finalizes an order, its hold ends CAPTURED exactly if it was still HELD. */
  lemma {:induction false} PaidIsCaptured(start: Millis, steps: seq<Step>, o: OrderId)
    requires o < |Run(EmptyDb(start), steps).orders|
    requires Run(EmptyDb(start), steps).orders[o].status == Unpaid
    ensures var db := Run(EmptyDb(start), steps);
            var after := Apply(db, PaymentNotice(o, true));
            && o < |after.orders| && after.orders[o].status == Paid
            && ((o in after.holds && after.holds[o].status == Captured)
                <==> (o in db.holds && db.holds[o].status == Held))
  {
    RunInvariant(start, steps);
    var db := Run(EmptyDb(start), steps);
    hide Inv, Finalize;
    FinalizedHold(db, o);
  }

  lemma FinalizedHold(db: Db, o: OrderId)
    requires Inv(db) && o < |db.orders| && db.orders[o].status == Unpaid
    ensures var after := Finalize(db, o);
            && after.orders[o].status == Paid
            && ((o in after.holds && after.holds[o].status == Captured)
                <==> (o in db.holds && db.holds[o].status == Held))
  {
    BooksShapes(db);
    FinalizeView(db, o, o);
    FinalizeStatement(ViewAt(db, o), o);
    var after := Finalize(db, o);
    HoldOfView(db, o);
    HoldOfView(after, o);
    hide Inv, Shapes, Finalize, ViewAt, ViewOk;
  }

  lemma HoldOfView(db: Db, o: OrderId)
    requires o < |db.orders|
    ensures ViewAt(db, o).hold == Lookup(db.holds, o) && ViewAt(db, o).order.status == db.orders[o].status
  {
  }
}
