/** Solvency: a wallet covers its active holds. Which steps keep it, exactly, and a run that breaks it. */
module Solvency {
  import opened Domain
  import opened Ledger
  import opened Wallets
  import opened Orders
  import opened OrderView
  import opened Statements
  import opened Invariant
  import opened Runs
  import opened Balances
  import Pricing
  import Rounding

  // ----- the sum of active holds -----

  /** Holds that lose weight, one by one, leave a smaller sum. */
  lemma {:induction false} ActiveHoldsShrink(holds: map<OrderId, Hold>, now: Millis, holds': map<OrderId, Hold>,
                                             now': Millis, user: UserId)
    requires holds'.Keys == holds.Keys
    requires forall o :: o in holds ==> Weight(holds'[o], user, now') <= Weight(holds[o], user, now)
    ensures ActiveHolds(holds', user, now') <= ActiveHolds(holds, user, now)
    decreases |holds|
  {
    if holds != map[] {
      var o :| o in holds;
      ActiveHoldsSplit(holds, o, user, now);
      ActiveHoldsSplit(holds', o, user, now');
      ActiveHoldsShrink(holds - {o}, now, holds' - {o}, now', user);
    } else {
      assert holds' == map[];
    }
  }

  predicate Covers(wallets: map<UserId, Wallet>, user: UserId, held: nat) {
    held <= WalletOf(wallets, user).balance
  }

  /** Every wallet's balance is at least the sum of its unexpired HELD holds; in particular it is not negative. */
  ghost predicate Solvent(db: Db) {
    forall user: UserId :: Covers(db.wallets, user, ActiveHolds(db.holds, user, db.now))
  }

  // ----- exactly which postings keep a wallet covered -----

  /** A posting that is not a replay keeps its wallet covered if and only if what is left covers the active holds. */
  lemma PostCoversIff(db: Db, user: UserId, tx: TxType, amount: int, order: Option<OrderId>, key: Option<Key>)
    requires amount != 0 && Solvent(db) && !Replayed(db, key)
    ensures Solvent(Post(db, user, tx, amount, order, key).db)
       <==> ActiveHolds(db.holds, user, db.now) <= WalletOf(db.wallets, user).balance + amount
  {
    var after := Post(db, user, tx, amount, order, key).db;
    if ActiveHolds(db.holds, user, db.now) <= WalletOf(db.wallets, user).balance + amount {
      forall u: UserId ensures Covers(after.wallets, u, ActiveHolds(after.holds, u, after.now)) {
        assert Covers(db.wallets, u, ActiveHolds(db.holds, u, db.now));
      }
    } else {
      assert !Covers(after.wallets, user, ActiveHolds(after.holds, user, after.now));
    }
  }

  /** Capturing a hold keeps every wallet covered if and only if the hold is still unexpired, or the money left
      after it covers the owner's other active holds, or the capture was already posted. */
  lemma CaptureCoversIff(db: Db, o: OrderId)
    requires Solvent(db) && o in db.holds && db.holds[o].status == Held
    ensures var hold := db.holds[o];
            Solvent(CaptureHold(db, o)) <==>
            || db.now < hold.expiresAt
            || FindKey(db.ledger, CaptureKey(o)).Some?
            || ActiveHolds(db.holds, hold.user, db.now) + hold.amount <= WalletOf(db.wallets, hold.user).balance
  {
    var hold := db.holds[o];
    var after := CaptureHold(db, o);
    var posted := Post(db, hold.user, RedemptionCapture, Minus(hold.amount), Some(o), Some(CaptureKey(o))).db;
    assert after.holds == db.holds[o := hold.(status := Captured)];
    assert after.wallets == posted.wallets && after.now == db.now;
    forall u: UserId
      ensures ActiveHolds(after.holds, u, db.now) == ActiveHolds(db.holds, u, db.now) - Weight(hold, u, db.now)
    {
      ActiveHoldsSplit(db.holds, o, u, db.now);
      ActiveHoldsUpdate(db.holds, o, hold.(status := Captured), u, db.now);
    }
    assert Covers(db.wallets, hold.user, ActiveHolds(db.holds, hold.user, db.now));
    hide ActiveHolds;
    if db.now < hold.expiresAt || FindKey(db.ledger, CaptureKey(o)).Some?
       || ActiveHolds(db.holds, hold.user, db.now) + hold.amount <= WalletOf(db.wallets, hold.user).balance {
      forall u: UserId ensures Covers(after.wallets, u, ActiveHolds(after.holds, u, after.now)) {
        assert Covers(db.wallets, u, ActiveHolds(db.holds, u, db.now));
      }
    } else {
      assert !Covers(after.wallets, hold.user, ActiveHolds(after.holds, hold.user, after.now));
    }
  }

  // ----- steps -----

  /** The owner's other active holds and the money going out fit the balance and the money coming in. */
  ghost predicate Affordable(db: Db, user: UserId, out: int, back: int) {
    ActiveHolds(db.holds, user, db.now) + out <= WalletOf(db.wallets, user).balance + back
  }

  /** The hold of a paid order has not run out, or the balance and the cashback pay for it all the same. */
  ghost predicate PaymentFits(db: Db, o: OrderId)
    requires o < |db.orders|
  {
    var order := db.orders[o];
    HoldDue(db, o) ==> db.now < db.holds[o].expiresAt || Affordable(db, order.user, order.walletSpent, order.cashback)
  }

  /** The buyer can give back the cashback out of the balance and what the refund returns, the referrer the reward. */
  ghost predicate RefundFits(db: Db, o: OrderId, amount: nat, mode: RefundMode)
    requires o < |db.orders|
  {
    var order := db.orders[o];
    && Affordable(db, order.user, if CashbackReversalDue(order) then order.cashback else 0,
                  Returned(order, amount, mode))
    && (RewardReversalDue(db, o) ==> Affordable(db, db.referrals[o].referrer, db.referrals[o].reward, 0))
  }

  /** What a step needs, before it runs, to leave every wallet covered. Only payments, refunds and the operations on
      whole balances need anything. */
  ghost predicate Covered(db: Db, step: Step) {
    match step
    case PaymentNotice(o, success) => success && o < |db.orders| && db.orders[o].status == Unpaid ==> PaymentFits(db, o)
    case RefundPaid(o, amount, mode) =>
      o < |db.orders| && RefundOrder(db, o, amount, mode).Ok? ==> RefundFits(db, o, amount, mode)
    case AdjustBalance(user, amount) => Affordable(db, user, 0, amount)
    case CancelUserBalance(user) => ActiveHolds(db.holds, user, db.now) == 0
    case ExpireBalances(users) =>
      ListsExpired(db, users) ==> forall u :: u in users ==> ActiveHolds(db.holds, u, db.now) == 0
    case _ => true
  }

  lemma SameMoney(db: Db, after: Db)
    requires Solvent(db) && db.now <= after.now && after.holds.Keys == db.holds.Keys
    requires forall o :: o in db.holds ==> after.holds[o] == db.holds[o] || after.holds[o].status != Held
    requires forall u: UserId :: WalletOf(db.wallets, u).balance <= WalletOf(after.wallets, u).balance
    ensures Solvent(after)
  {
    forall u: UserId ensures Covers(after.wallets, u, ActiveHolds(after.holds, u, after.now)) {
      ActiveHoldsShrink(db.holds, db.now, after.holds, after.now, u);
      assert Covers(db.wallets, u, ActiveHolds(db.holds, u, db.now));
    }
  }

  lemma SolventRows(db: Db, after: Db)
    requires Solvent(db) && after.wallets == db.wallets && after.holds == db.holds && after.now == db.now
    ensures Solvent(after)
  {
    forall u: UserId ensures Covers(after.wallets, u, ActiveHolds(after.holds, u, after.now)) {
      assert Covers(db.wallets, u, ActiveHolds(db.holds, u, db.now));
    }
  }

  lemma HoldCovers(db: Db, o: OrderId, user: UserId, amount: pos)
    requires Solvent(db) && CreateHold(db, o, user, amount).Ok?
    ensures Solvent(CreateHold(db, o, user, amount).value)
  {
    if o !in db.holds {
      var after := CreateHold(db, o, user, amount).value;
      forall u: UserId ensures Covers(after.wallets, u, ActiveHolds(after.holds, u, after.now)) {
        assert Covers(db.wallets, u, ActiveHolds(db.holds, u, db.now));
        ActiveHoldsUpdate(db.holds, o, after.holds[o], u, db.now);
        assert db.holds - {o} == db.holds;
      }
    }
  }

  lemma PlaceCovers(db: Db, user: UserId, req: CheckoutRequest)
    requires Solvent(db) && |db.orders| !in db.holds
    ensures var r := PlaceOrder(db, user, req);
            Solvent(r.db) && (r.Placed? && r.id in r.db.holds ==> r.db.now < r.db.holds[r.id].expiresAt)
  {
    hide ReferralFor, NewOrder, Solvent, Available, ActiveHolds;
    var r := PlaceOrder(db, user, req);
    var referrer := ReferralFor(db, user, req);
    if referrer.Ok? {
      var id := |db.orders|;
      var order := NewOrder(user, req, referrer.value.Some?, db.now);
      var d1 := db.(orders := db.orders + [order]);
      var d2 := if referrer.value.Some? then CreateReferral(d1, id, user, referrer.value.value) else d1;
      SolventRows(db, d2);
      if 0 < order.walletSpent && CreateHold(d2, id, user, order.walletSpent).Ok? {
        HoldCovers(d2, id, user, order.walletSpent);
      }
    }
  }

  /** An Unpaid order's hold is its buyer's and of the eXu the order spends; nobody refers themselves. */
  lemma OrderRows(db: Db, o: OrderId)
    requires Inv(db) && o < |db.orders|
    ensures o in db.holds ==> db.holds[o].user == db.orders[o].user && db.holds[o].amount == db.orders[o].walletSpent
    ensures o in db.referrals ==> db.referrals[o].referrer != db.orders[o].user
  {
    RowsOfView(db, o);
    assert ViewOk(ViewAt(db, o), o);
    hide Books, ViewAt, OwnEntries, RefundsOf, Statement, RowsAgree, OrderValue, AmountSum;
  }

  /** What paying an order leaves active: everybody's holds but its own. */
  lemma PaidHolds(db: Db, o: OrderId, user: UserId)
    requires Inv(db) && o < |db.orders|
    ensures var after := Finalize(db, o);
            ActiveHolds(after.holds, user, after.now)
            == ActiveHolds(db.holds, user, db.now) - if o in db.holds then Weight(db.holds[o], user, db.now) else 0
  {
    OrderRows(db, o);
    FinalizeHolds(db, o);
    hide Inv, Finalize;
    if o in db.holds {
      ActiveHoldsSplit(db.holds, o, user, db.now);
      ActiveHoldsUpdate(db.holds, o, db.holds[o].(status := Captured), user, db.now);
    }
  }

  lemma Covering(db: Db, user: UserId)
    requires Solvent(db)
    ensures ActiveHolds(db.holds, user, db.now) <= WalletOf(db.wallets, user).balance
  {
    assert Covers(db.wallets, user, ActiveHolds(db.holds, user, db.now));
  }

  lemma NotCovering(db: Db, user: UserId)
    requires WalletOf(db.wallets, user).balance < ActiveHolds(db.holds, user, db.now)
    ensures !Solvent(db)
  {
    assert !Covers(db.wallets, user, ActiveHolds(db.holds, user, db.now));
  }

  /** Paying an order keeps every wallet covered if and only if its hold has not run out, or the buyer's balance and
      cashback cover the captured eXu on top of the other active holds. */
  lemma PaymentCoversIff(db: Db, o: OrderId)
    requires Inv(db) && Solvent(db) && o < |db.orders| && db.orders[o].status == Unpaid
    ensures Solvent(Finalize(db, o)) <==> PaymentFits(db, o)
  {
    var after := Finalize(db, o);
    var buyer := db.orders[o].user;
    OrderRows(db, o);
    hide Inv, Finalize, ActiveHolds, Solvent, WalletOf;
    if PaymentFits(db, o) {
      forall u: UserId ensures ActiveHolds(after.holds, u, after.now) <= WalletOf(after.wallets, u).balance {
        PaidHolds(db, o, u);
        FinalizeBalance(db, o, u);
        Covering(db, u);
      }
      AllCovering(after);
    } else {
      PaidHolds(db, o, buyer);
      FinalizeBalance(db, o, buyer);
      NotCovering(after, buyer);
    }
  }

  lemma AllCovering(db: Db)
    requires forall u: UserId :: ActiveHolds(db.holds, u, db.now) <= WalletOf(db.wallets, u).balance
    ensures Solvent(db)
  {
  }

  /** A refund keeps every wallet covered if and only if buyer and referrer can give back what it takes from them,
      the buyer out of the balance and the refund itself. */
  lemma RefundCoversIff(db: Db, o: OrderId, amount: int, mode: RefundMode)
    requires Inv(db) && Solvent(db) && o < |db.orders| && RefundOrder(db, o, amount, mode).Ok?
    ensures 0 <= amount && (Solvent(RefundOrder(db, o, amount, mode).value) <==> RefundFits(db, o, amount, mode))
  {
    var after := RefundOrder(db, o, amount, mode).value;
    var buyer := db.orders[o].user;
    RefundBalance(db, o, amount, mode, buyer);
    RefundHolds(db, o, amount, mode);
    OrderRows(db, o);
    hide Inv, RefundOrder, ActiveHolds, Solvent, WalletOf, Returned;
    if RefundFits(db, o, amount, mode) {
      forall u: UserId ensures ActiveHolds(after.holds, u, after.now) <= WalletOf(after.wallets, u).balance {
        RefundBalance(db, o, amount, mode, u);
        Covering(db, u);
      }
      AllCovering(after);
    } else if !Affordable(db, buyer, if CashbackReversalDue(db.orders[o]) then db.orders[o].cashback
                          else 0, Returned(db.orders[o], amount, mode)) {
      NotCovering(after, buyer);
    } else {
      RefundBalance(db, o, amount, mode, db.referrals[o].referrer);
      NotCovering(after, db.referrals[o].referrer);
    }
  }

  lemma CheckoutCovers(db: Db, user: UserId, req: CheckoutRequest)
    requires Inv(db) && Solvent(db)
    ensures Solvent(Checkout(db, user, req).db)
  {
    assert |db.orders| !in db.holds;
    PlaceOrderKeeps(db, user, req);
    hide Inv, Solvent, PlaceOrder, Finalize;
    PlaceCovers(db, user, req);
    var placed := PlaceOrder(db, user, req);
    if placed.Placed? {
      PaymentCoversIff(placed.db, placed.id);
    }
  }

  lemma ManualCovers(db: Db, user: UserId, subtotal: int)
    requires Inv(db) && Solvent(db)
    ensures Solvent(ManualOrder(db, user, subtotal).db)
  {
    assert |db.orders| !in db.holds;
    var req := CheckoutRequest(subtotal, None, None, 0);
    PlaceOrderKeeps(db, user, req);
    hide Inv, Solvent, PlaceOrder, Finalize;
    PlaceCovers(db, user, req);
    var placed := PlaceOrder(db, user, req);
    if placed.Placed? {
      PaymentCoversIff(placed.db, placed.id);
    }
  }

  lemma {:induction false} ExpireRowsHolds(db: Db, users: seq<UserId>, rows: map<UserId, Wallet>)
    requires forall i :: 0 <= i < |users| ==> users[i] in rows
    ensures ExpireRows(db, users, rows).holds == db.holds
    decreases |users|
  {
    if |users| > 0 {
      ExpireRowsHolds(ExpireRow(db, users[0], rows[users[0]]), users[1..], rows);
    }
  }

  /** The expiry job keeps every wallet covered if and only if no wallet it empties has active holds. */
  lemma ExpiryCoversIff(db: Db, users: seq<UserId>)
    requires Inv(db) && Solvent(db) && ListsExpired(db, users)
    ensures Solvent(ExpireWallets(db, users)) <==> forall u :: u in users ==> ActiveHolds(db.holds, u, db.now) == 0
  {
    var after := ExpireWallets(db, users);
    ExpireRowsKeep(db, users, db.wallets);
    ExpireRowsHolds(db, users, db.wallets);
    hide Inv, ExpireRows, ActiveHolds, Solvent;
    if forall u :: u in users ==> ActiveHolds(db.holds, u, db.now) == 0 {
      forall u: UserId ensures ActiveHolds(after.holds, u, after.now) <= WalletOf(after.wallets, u).balance {
        Covering(db, u);
      }
      AllCovering(after);
    } else {
      var u :| u in users && ActiveHolds(db.holds, u, db.now) != 0;
      NotCovering(after, u);
    }
  }

  lemma CancelBalanceCoversIff(db: Db, user: UserId)
    requires Solvent(db)
    ensures Solvent(CancelBalance(db, user)) <==> ActiveHolds(db.holds, user, db.now) == 0
  {
    var touched := TouchWallet(db, user);
    SameMoney(db, touched);
    Covering(db, user);
    hide Solvent, ActiveHolds;
    var balance := touched.wallets[user].balance;
    if balance != 0 {
      PostCoversIff(touched, user, ManualCancel, -balance, None, None);
    }
  }

  lemma AdjustCoversIff(db: Db, user: UserId, amount: int)
    requires Solvent(db)
    ensures Solvent(Adjust(db, user, amount)) <==> Affordable(db, user, 0, amount)
  {
    Covering(db, user);
    hide Solvent, ActiveHolds, Post;
    if amount != 0 {
      PostCoversIff(db, user, if 0 < amount then ManualCredit else ManualDebit, amount, None, None);
    }
  }

  lemma CancelCovers(db: Db, o: OrderId, buyer: Option<UserId>)
    requires Solvent(db) && Cancel(db, o, buyer).Ok?
    ensures Solvent(Cancel(db, o, buyer).value)
  {
    hide Solvent;
    SameMoney(db, Cancel(db, o, buyer).value);
  }

  lemma NoticeCoversIff(db: Db, o: OrderId, success: bool)
    requires Inv(db) && Solvent(db) && o < |db.orders|
    ensures Solvent(OrderIpn(db, o, success)) <==> (success && db.orders[o].status == Unpaid ==> PaymentFits(db, o))
  {
    hide Inv, Solvent, Finalize, PaymentFits;
    if db.orders[o].status == Unpaid {
      if success {
        PaymentCoversIff(db, o);
      } else {
        CancelCovers(db, o, None);
      }
    }
  }

  lemma CronCovers(db: Db)
    requires Solvent(db)
    ensures Solvent(FailOverdue(db)) && Solvent(ExpireHolds(db))
  {
    hide Solvent;
    SameMoney(db, FailOverdue(db));
    SameMoney(db, ExpireHolds(db));
  }

  /** Each step leaves every wallet covered if and only if it is Covered when it starts. */
  lemma {:induction false} StepCoversIff(db: Db, step: Step)
    requires Inv(db) && Solvent(db)
    ensures Solvent(Apply(db, step)) <==> Covered(db, step)
  {
    assert |db.orders| !in db.holds;
    hide Inv, Solvent, PlaceOrder, Checkout, ManualOrder, OrderIpn, Cancel, FailOverdue, ExpireHolds, RefundOrder,
         ExpireWallets,
         Adjust, ActiveHolds, CancelBalance, ListsExpired, PaymentFits, RefundFits, Affordable, WalletOf;
    match step
    case Tick(elapsed) => SameMoney(db, Apply(db, step));
    case SetProfile(code, profile) => SolventRows(db, Apply(db, step));
    case PlaceCheckout(user, req) => CheckoutCovers(db, user, req);
    case PlaceDirect(user, req) => PlaceCovers(db, user, req);
    case PlaceManual(user, subtotal) => ManualCovers(db, user, subtotal);
    case PaymentNotice(o, success) =>
      if o < |db.orders| {
        NoticeCoversIff(db, o, success);
      }
    case CancelOrder(o, buyer) =>
      if Cancel(db, o, buyer).Ok? {
        CancelCovers(db, o, buyer);
      }
    case FailOverdueOrders => CronCovers(db);
    case LapseHolds => CronCovers(db);
    case ExpireBalances(users) =>
      if ListsExpired(db, users) {
        ExpiryCoversIff(db, users);
      }
    case RefundPaid(o, amount, mode) =>
      if o < |db.orders| && RefundOrder(db, o, amount, mode).Ok? {
        RefundCoversIff(db, o, amount, mode);
      }
    case AdjustBalance(user, amount) => AdjustCoversIff(db, user, amount);
    case CancelUserBalance(user) => CancelBalanceCoversIff(db, user);
    case SetStatus(user, status) => StatusCovers(db, user, status);
  }

  lemma StatusCovers(db: Db, user: UserId, status: WalletStatus)
    requires Solvent(db)
    ensures Solvent(SetWalletStatus(db, user, status))
  {
    SameMoney(db, SetWalletStatus(db, user, status));
  }

  // ----- runs -----

  /** Every step of the run is covered at the moment it runs. */
  ghost predicate CoveredRun(db: Db, steps: seq<Step>) {
    if |steps| == 0 then true
    else
      var before := steps[..|steps| - 1];
      CoveredRun(db, before) && Covered(Run(db, before), steps[|steps| - 1])
  }

  /** Every wallet is covered before, between and after the steps. */
  ghost predicate SolventThroughout(db: Db, steps: seq<Step>) {
    (0 < |steps| ==> SolventThroughout(db, steps[..|steps| - 1])) && Solvent(Run(db, steps))
  }

  lemma {:induction false} RunCoversIff(db: Db, steps: seq<Step>)
    requires Inv(db) && Solvent(db)
    ensures SolventThroughout(db, steps) <==> CoveredRun(db, steps)
  {
    hide Inv, Solvent, Covered, Apply;
    if |steps| > 0 {
      var before := steps[..|steps| - 1];
      RunCoversIff(db, before);
      RunKeeps(db, before);
      if Solvent(Run(db, before)) {
        StepCoversIff(Run(db, before), steps[|steps| - 1]);
      }
    }
  }

  lemma EmptySolvent(start: Millis)
    ensures Inv(EmptyDb(start)) && Solvent(EmptyDb(start))
  {
  }

  /** From an empty shop, a run keeps every wallet covered from beginning to end if and only if each of its steps is
      covered when it starts. */
  lemma {:induction false} RunSolventIff(start: Millis, steps: seq<Step>)
    ensures SolventThroughout(EmptyDb(start), steps) <==> CoveredRun(EmptyDb(start), steps)
  {
    EmptySolvent(start);
    RunCoversIff(EmptyDb(start), steps);
  }

  /** Then every balance is at least the sum of its active holds, hence never negative. */
  lemma {:induction false} RunSolvent(start: Millis, steps: seq<Step>, user: UserId)
    requires CoveredRun(EmptyDb(start), steps)
    ensures var db := Run(EmptyDb(start), steps);
            0 <= ActiveHolds(db.holds, user, db.now) <= WalletOf(db.wallets, user).balance
  {
    RunSolventIff(start, steps);
    assert Solvent(Run(EmptyDb(start), steps));
    hide Run, Solvent, CoveredRun;
    Covering(Run(EmptyDb(start), steps), user);
  }

  // ----- a run that is not covered -----

  const EAGER := CheckoutRequest(200, None, None, 100)

  /** Buyer 7 owns 100 eXu and spends them twice: the first hold runs out, a second order holds the same money,
      and then both orders are paid. */
  const LATE_CAPTURE: seq<Step> := [
    AdjustBalance(7, 100), PlaceCheckout(7, EAGER), Tick(HOLD_LIFETIME), PlaceCheckout(7, EAGER),
    PaymentNotice(0, true), PaymentNotice(1, true)]

  lemma EagerOrder(now: Millis)
    ensures NewOrder(7, EAGER, false, now) == Order(7, Unpaid, 200, 0, 0, 100, 100, 4, None, false, 0, now)
  {
    Rounding.RoundDivUnique(400, 100, 4);
  }

  lemma EagerCheckout(db: Db)
    requires |db.orders| !in db.holds && 7 in db.wallets && Spendable(db.wallets[7], db.now)
    requires db.wallets[7].balance == 100 && ActiveHolds(db.holds, 7, db.now) == 0
    ensures var hold := Hold(7, 100, Held, db.now + HOLD_LIFETIME);
            Checkout(db, 7, EAGER).db
            == db.(orders := db.orders + [EagerRow(db.now)], holds := db.holds[|db.orders| := hold])
  {
    EagerOrder(db.now);
    hide NewOrder;
    assert db.wallets[7 := db.wallets[7]] == db.wallets;
  }

  lemma RunSnoc(db: Db, steps: seq<Step>, step: Step)
    ensures Run(db, steps + [step]) == Apply(Run(db, steps), step)
  {
    assert (steps + [step])[..|steps|] == steps;
  }

  lemma RunOfFour(db: Db, s: seq<Step>)
    requires |s| == 6
    ensures Run(db, s[..4]) == Apply(Apply(Apply(Apply(db, s[0]), s[1]), s[2]), s[3])
    ensures Run(db, s) == Apply(Apply(Run(db, s[..4]), s[4]), s[5])
  {
    hide Apply;
    assert s[..0] == [] && s[..1] == [] + [s[0]] && s[..2] == s[..1] + [s[1]] && s[..3] == s[..2] + [s[2]];
    assert s[..4] == s[..3] + [s[3]] && s[..5] == s[..4] + [s[4]] && s == s[..5] + [s[5]];
    RunSnoc(db, [], s[0]); RunSnoc(db, s[..1], s[1]); RunSnoc(db, s[..2], s[2]);
    RunSnoc(db, s[..3], s[3]); RunSnoc(db, s[..4], s[4]); RunSnoc(db, s[..5], s[5]);
  }

  function EagerRow(now: Millis): Order {
    Order(7, Unpaid, 200, 0, 0, 100, 100, 4, None, false, 0, now)
  }

  /** After the credit, and after both checkouts. */
  function CreditedBuyer(): Db {
    EmptyDb(0).(wallets := map[7 := Wallet(100, Active, Some(EXU_EXPIRY))],
                ledger := [Entry(7, ManualCredit, 100, 100, None, None)])
  }

  function HeldTwice(): Db {
    CreditedBuyer().(now := HOLD_LIFETIME, orders := [EagerRow(0), EagerRow(HOLD_LIFETIME)],
                 holds := map[0 := Hold(7, 100, Held, HOLD_LIFETIME), 1 := Hold(7, 100, Held, 2 * HOLD_LIFETIME)])
  }

  lemma TwoCheckouts()
    ensures Apply(Apply(Apply(Apply(EmptyDb(0), AdjustBalance(7, 100)), PlaceCheckout(7, EAGER)),
                        Tick(HOLD_LIFETIME)), PlaceCheckout(7, EAGER))
         == HeldTwice()
  {
    var d1 := CreditedBuyer();
    assert Apply(EmptyDb(0), AdjustBalance(7, 100)) == d1;
    EagerCheckout(d1);
    var d2 := d1.(orders := [EagerRow(0)], holds := map[0 := Hold(7, 100, Held, HOLD_LIFETIME)]);
    assert Apply(d1, PlaceCheckout(7, EAGER)) == d2 by {
      hide Checkout;
      assert d1.orders + [EagerRow(0)] == d2.orders;
    }
    var d3 := d2.(now := HOLD_LIFETIME);
    ActiveHoldsUpdate(map[], 0, d3.holds[0], 7, d3.now);
    assert ActiveHolds(d3.holds, 7, d3.now) == 0 by {
      var none: map<OrderId, Hold> := map[];
      assert none - {0} == none && none[0 := d3.holds[0]] == d3.holds;
    }
    EagerCheckout(d3);
    hide Checkout;
    assert d3.orders + [EagerRow(HOLD_LIFETIME)] == HeldTwice().orders;
  }

  /** An order that spends 100 eXu of buyer 7 and earns 4, with its hold still HELD, costs buyer 7 another 96. */
  lemma EagerPayment(db: Db, o: OrderId)
    requires Inv(db) && o < |db.orders| && db.orders[o] == EagerRow(db.orders[o].createdAt) && HoldDue(db, o)
             && o !in db.referrals
    ensures WalletOf(Finalize(db, o).wallets, 7).balance == WalletOf(db.wallets, 7).balance - 96
  {
    FinalizeBalance(db, o, 7);
    hide Inv, Finalize, WalletOf;
  }

  /** Paying one order leaves the rows of another alone. */
  lemma OtherRows(db: Db, o: OrderId, p: OrderId)
    requires Inv(db) && o < |db.orders| && p < |db.orders| && p != o && db.orders[o].status == Unpaid
             && db.orders[p].cashbackTx.None?
    ensures var after := Finalize(db, o);
            && Inv(after) && after.orders[p] == db.orders[p]
            && (HoldDue(db, p) ==> HoldDue(after, p)) && (p !in db.referrals ==> p !in after.referrals)
  {
    FinalizeKeeps(db, o);
    var after := Finalize(db, o);
    hide Inv, Finalize, ViewAt, ViewStep;
    assert ViewAt(after, p) == ViewAt(db, p);
    SameRows(db, after, p);
  }

  /** What an equal view says of the rows, of an order whose cashback is not written back yet. */
  lemma SameRows(db: Db, after: Db, p: OrderId)
    requires p < |db.orders| && p < |after.orders| && ViewAt(after, p) == ViewAt(db, p) && db.orders[p].cashbackTx.None?
    ensures after.orders[p] == db.orders[p] && (HoldDue(db, p) ==> HoldDue(after, p))
    ensures p !in db.referrals ==> p !in after.referrals
  {
    RowsOfView(db, p);
    RowsOfView(after, p);
    hide ViewAt, OwnEntries, RefundsOf;
  }

  lemma TwoPayments()
    requires Inv(HeldTwice())
    ensures |HeldTwice().orders| == 2
    ensures WalletOf(OrderIpn(OrderIpn(HeldTwice(), 0, true), 1, true).wallets, 7).balance == -92
  {
    var db := HeldTwice();
    hide Inv, Finalize;
    EagerPayment(db, 0);
    OtherRows(db, 0, 1);
    EagerPayment(Finalize(db, 0), 1);
  }

  lemma LateRun()
    ensures Inv(HeldTwice())
    ensures Run(EmptyDb(0), LATE_CAPTURE) == OrderIpn(OrderIpn(HeldTwice(), 0, true), 1, true)
  {
    RunInvariant(0, LATE_CAPTURE[..4]);
    RunOfFour(EmptyDb(0), LATE_CAPTURE);
    TwoCheckouts();
    assert |HeldTwice().orders| == 2;
    hide *;
    NoticeApplies(HeldTwice(), 0);
    NoticeApplies(OrderIpn(HeldTwice(), 0, true), 1);
  }

  lemma NoticeApplies(db: Db, o: OrderId)
    requires o < |db.orders|
    ensures Apply(db, PaymentNotice(o, true)) == OrderIpn(db, o, true)
  {
    hide OrderIpn;
  }

  /** The capture of a hold that has run out is not covered: this run ends with a negative balance. */
  lemma LateCaptureOverdraws()
    ensures WalletOf(Run(EmptyDb(0), LATE_CAPTURE).wallets, 7).balance == -92
    ensures !CoveredRun(EmptyDb(0), LATE_CAPTURE)
  {
    LateRun();
    TwoPayments();
    hide *;
    if CoveredRun(EmptyDb(0), LATE_CAPTURE) {
      RunSolvent(0, LATE_CAPTURE, 7);
    }
  }
}
