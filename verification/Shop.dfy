/** The services over the shop's tables, updating them in place as the handlers do. Every method is proved
    against the function that says what its handler does to the whole database. */
module ShopService {
  import opened Domain
  import opened Ledger
  import opened Wallets
  import opened Orders
  import opened OrderView
  import opened Runs
  import opened Invariant
  import Pricing

  class Shop {
    var now: Millis
    var wallets: map<UserId, Wallet>
    var ledger: seq<Entry>
    var holds: map<OrderId, Hold>
    var profiles: map<Code, Profile>
    var referrals: map<OrderId, Referral>
    var orders: seq<Order>
    var refunds: seq<Refund>

    function State(): Db
      reads this
    {
      Db(now, wallets, ledger, holds, profiles, referrals, orders, refunds)
    }

    /** The invariant of every run: what StepKeeps proves of the functions, each handler keeps in place. The methods
        without it are the parts that handlers are made of. */
    ghost predicate Valid()
      reads this
    {
      Inv(State())
    }

    constructor (start: Millis)
      ensures State() == EmptyDb(start) && Valid()
    {
      now, wallets, ledger, holds := start, map[], [], map[];
      profiles, referrals, orders, refunds := map[], map[], [], [];
      new;
      EmptyIsValid(start);
    }

    method Tick(elapsed: nat)
      modifies this`now
      ensures State() == old(State()).(now := old(now) + elapsed)
      ensures old(Valid()) ==> Valid()
    {
      now := now + elapsed;
      StepValid(old(State()), Step.Tick(elapsed), State());
    }

    method SetReferralProfile(code: Code, profile: Profile)
      modifies this`profiles
      ensures State() == old(State()).(profiles := old(profiles)[code := profile])
      ensures old(Valid()) ==> Valid()
    {
      profiles := profiles[code := profile];
      StepValid(old(State()), SetProfile(code, profile), State());
    }

    // ----- wallets.service.ts -----

    method GetOrCreateWallet(user: UserId) returns (wallet: Wallet)
      modifies this`wallets
      ensures State() == TouchWallet(old(State()), user) && wallet == wallets[user]
    {
      if user !in wallets {
        wallets := wallets[user := Wallet(0, Active, None)];
      }
      wallet := wallets[user];
      assert old(wallets)[user := wallet] == wallets;
    }

    method FindByKey(key: Key) returns (id: Option<TxId>)
      ensures id == FindKey(ledger, key)
    {
      var i := 0;
      id := None;
      assert ledger[..0] == [];
      while i < |ledger|
        invariant i <= |ledger| && id == FindKey(ledger[..i], key)
      {
        assert ledger[..i + 1] == ledger[..i] + [ledger[i]];
        FindKeyAppend(ledger[..i], ledger[i], key);
        if id.None? && ledger[i].key == Some(key) {
          id := Some(i);
        }
        i := i + 1;
      }
      assert ledger[..i] == ledger;
    }

    /** createTransactionWithManager: a zero amount is refused before anything is written. */
    method CreateTransaction(user: UserId, tx: TxType, amount: int, order: Option<OrderId>, key: Option<Key>)
      returns (id: Option<TxId>)
      modifies this`wallets, this`ledger
      ensures amount == 0 ==> id == None && State() == old(State())
      ensures amount != 0 ==>
                var posted := Post(old(State()), user, tx, amount, order, key);
                State() == posted.db && id == Some(posted.id)
    {
      hide FindKey;
      if amount == 0 {
        return None;
      }
      if key.Some? {
        id := FindByKey(key.value);
        if id.Some? {
          return;
        }
      }
      var wallet := GetOrCreateWallet(user);
      var balanceAfter := wallet.balance + amount;
      wallet := wallet.(balance := balanceAfter);
      if ShouldResetExpiry(tx, amount) {
        wallet := wallet.(expiresAt := Some(now + EXU_EXPIRY));
      }
      assert old(wallets)[user := wallet] == wallets[user := wallet];
      wallets := wallets[user := wallet];
      ledger := ledger + [Entry(user, tx, amount, balanceAfter, order, key)];
      id := Some(|ledger| - 1);
    }

    method GetAvailableBalance(user: UserId) returns (available: nat)
      modifies this`wallets
      ensures State() == TouchWallet(old(State()), user)
      ensures available == Available(old(State()), user)
    {
      var wallet := GetOrCreateWallet(user);
      if wallet.status != Active || (wallet.expiresAt.Some? && wallet.expiresAt.value < now) {
        return 0;
      }
      var rest := holds;
      var sum := 0;
      while rest != map[]
        invariant wallets == old(wallets)[user := wallet]
        invariant sum + ActiveHolds(rest, user, now) == ActiveHolds(holds, user, now)
        decreases |rest|
      {
        var o :| o in rest;
        ActiveHoldsSplit(rest, o, user, now);
        var hold := rest[o];
        if hold.user == user && hold.status == Held && now < hold.expiresAt {
          sum := sum + hold.amount;
        }
        rest := rest - {o};
      }
      available := if wallet.balance < sum then 0 else wallet.balance - sum;
    }

    method CreateHold(o: OrderId, user: UserId, amount: int) returns (error: Option<HoldError>)
      modifies this`wallets, this`holds
      ensures var expected := Wallets.CreateHold(old(State()), o, user, amount);
              if expected.Ok? then error == None && State() == expected.value
              else error == Some(expected.error) && State() == old(State())
    {
      if amount <= 0 || o in holds {
        return None;
      }
      var before := wallets;
      var wallet := GetOrCreateWallet(user);
      if wallet.status != Active {
        wallets := before;  // the transaction rolls back
        return Some(WalletLocked);
      }
      var available := GetAvailableBalance(user);
      if available < amount {
        wallets := before;
        return Some(NotEnough);
      }
      holds := holds[o := Hold(user, amount, Held, now + HOLD_LIFETIME)];
      error := None;
    }

    method CaptureHoldForOrder(o: OrderId)
      modifies this`wallets, this`ledger, this`holds
      ensures State() == CaptureHold(old(State()), o)
    {
      if o !in holds {
        return;
      }
      var hold := holds[o];
      if hold.status != Held {
        return;
      }
      var id := CreateTransaction(hold.user, RedemptionCapture, Minus(hold.amount), Some(o), Some(CaptureKey(o)));
      holds := holds[o := hold.(status := Captured)];
    }

    method ReleaseHoldForOrder(o: OrderId)
      modifies this`holds
      ensures State() == ReleaseHold(old(State()), o)
    {
      if o !in holds || holds[o].status != Held {
        return;
      }
      holds := holds[o := holds[o].(status := Released)];
    }

    method ReversePendingReferralForOrder(o: OrderId)
      modifies this`referrals
      ensures State() == ReversePendingReferral(old(State()), o)
    {
      if o !in referrals || referrals[o].status != Pending {
        return;
      }
      referrals := referrals[o := referrals[o].(status := Reversed)];
    }

    method ValidateReferralForOrder(user: UserId, code: Code, subtotal: int, hasCoupon: bool)
      returns (r: Result<UserId, ReferralError>)
      ensures r == ValidateReferral(State(), user, code, subtotal, hasCoupon)
    {
      if hasCoupon {
        return Err(WithCoupon);
      }
      if subtotal < REFERRAL_MIN_ORDER {
        return Err(BelowMinimum);
      }
      if code !in profiles || !profiles[code].isActive {
        return Err(UnknownCode);
      }
      var referrer := profiles[code].user;
      if referrer in wallets && wallets[referrer].status != Active {
        return Err(ReferrerLocked);
      }
      if referrer == user {
        return Err(OwnCode);
      }
      var i := 0;
      while i < |orders|
        invariant i <= |orders| && forall k :: 0 <= k < i ==> !(orders[k].user == user && orders[k].status == Paid)
      {
        if orders[i].user == user && orders[i].status == Paid {
          return Err(NotFirstOrder);
        }
        i := i + 1;
      }
      var rest := referrals.Keys;
      while rest != {}
        invariant rest <= referrals.Keys
        invariant forall o :: o in referrals && o !in rest ==> !(referrals[o].referee == user && Live(referrals[o]))
      {
        var o :| o in rest;
        if referrals[o].referee == user && Live(referrals[o]) {
          return Err(AlreadyUsed);
        }
        rest := rest - {o};
      }
      r := Ok(referrer);
    }

    method CreateOrderReferral(o: OrderId, referee: UserId, referrer: UserId)
      modifies this`referrals
      ensures State() == CreateReferral(old(State()), o, referee, referrer)
    {
      if o in referrals {
        return;
      }
      referrals := referrals[o := Referral(referrer, referee, REFERRAL_REWARD, Pending, None, None)];
    }

    method CompletePaidOrderBenefits(o: OrderId)
      requires o < |orders|
      modifies this`wallets, this`ledger, this`holds, this`orders, this`referrals
      ensures State() == CompleteBenefits(old(State()), o)
    {
      var order := orders[o];
      if 0 < order.walletSpent {
        CaptureHoldForOrder(o);
      }
      ghost var captured := State();
      assert captured == CaptureStage(old(State()), o);
      if 0 < order.cashback && order.cashbackTx.None? {
        var id := CreateTransaction(order.user, OrderCashback, order.cashback, Some(o), Some(CashbackKey(o)));
        PostedIsFound(captured, order.user, OrderCashback, order.cashback, Some(o), CashbackKey(o));
        orders := orders[o := orders[o].(cashbackTx := id)];
      }
      ghost var marked := State();
      assert marked == CashbackMarkStage(CashbackStage(captured, o), o);
      if o in referrals {
        var referral := referrals[o];
        if referral.status == Pending && referral.rewardTx.None? {
          var id := CreateTransaction(referral.referrer, ReferralReward, referral.reward, Some(o), Some(RewardKey(o)));
          PostedIsFound(marked, referral.referrer, ReferralReward, referral.reward, Some(o), RewardKey(o));
          referrals := referrals[o := referral.(rewardTx := id, status := Credited)];
        }
      }
    }

    method AdminAdjustWallet(user: UserId, amount: int) returns (id: Option<TxId>)
      modifies this`wallets, this`ledger
      ensures State() == Adjust(old(State()), user, amount) && (id.None? <==> amount == 0)
      ensures old(Valid()) ==> Valid()
    {
      id := CreateTransaction(user, if 0 < amount then ManualCredit else ManualDebit, amount, None, None);
      StepValid(old(State()), AdjustBalance(user, amount), State());
    }

    method CancelWalletBalance(user: UserId) returns (id: Option<TxId>)
      modifies this`wallets, this`ledger
      ensures State() == CancelBalance(old(State()), user) && wallets[user].balance == 0
      ensures old(Valid()) ==> Valid()
    {
      var wallet := GetOrCreateWallet(user);
      id := None;
      if wallet.balance != 0 {
        id := CreateTransaction(user, ManualCancel, -wallet.balance, None, None);
      }
      StepValid(old(State()), CancelUserBalance(user), State());
    }

    method UpdateWalletStatus(user: UserId, status: WalletStatus)
      modifies this`wallets
      ensures State() == SetWalletStatus(old(State()), user, status)
      ensures old(Valid()) ==> Valid()
    {
      var wallet := GetOrCreateWallet(user);
      wallets := wallets[user := wallet.(status := status)];
      StepValid(old(State()), SetStatus(user, status), State());
    }

    method ReverseCashbackOf(o: OrderId)
      requires o < |orders|
      modifies this`wallets, this`ledger, this`orders
      ensures State() == ReverseCashback(old(State()), o)
    {
      var order := orders[o];
      if 0 < order.cashback && !order.cashbackReversed {
        var tx := CreateTransaction(order.user, OrderCashbackReversal, Minus(order.cashback), Some(o),
                                    Some(CashbackReversalKey(o)));
        orders := orders[o := orders[o].(cashbackReversed := true)];
      }
    }

    method ReverseReferralOf(o: OrderId)
      modifies this`wallets, this`ledger, this`referrals
      ensures State() == ReverseReferral(old(State()), o)
    {
      if o in referrals {
        var referral := referrals[o];
        if referral.status == Credited && referral.reversalTx.None? {
          var tx := CreateTransaction(referral.referrer, ReferralRewardReversal, Minus(referral.reward), Some(o),
                                      Some(RewardReversalKey(o)));
          referrals := referrals[o := referral.(reversalTx := tx, status := Reversed)];
        } else if referral.status == Pending {
          referrals := referrals[o := referral.(status := Reversed)];
        }
      }
    }

    method RefundPaidOrder(o: OrderId, amount: int, mode: RefundMode) returns (error: Option<RefundError>)
      requires o < |orders|
      modifies this
      ensures var expected := RefundOrder(old(State()), o, amount, mode);
              if expected.Ok? then error == None && State() == expected.value
              else error == Some(expected.error) && State() == old(State())
      ensures old(Valid()) ==> Valid()
    {
      RefundValid(State(), o, amount, mode);
      hide Inv;
      var order := orders[o];
      if order.status != Paid && order.status != Refunded {
        return Some(NotRefundable);
      }
      if amount < 0 {
        return Some(NegativeAmount);
      }
      var totalOrderValue := order.payable + order.walletSpent;
      if totalOrderValue - order.refunded < amount {
        return Some(TooMuch);
      }
      hide RefundOrder;
      CarryOutRefund(o, amount, mode);
      error := None;
    }

    method CarryOutRefund(o: OrderId, amount: nat, mode: RefundMode)
      requires o < |orders| && RefundOrder(State(), o, amount, mode).Ok?
      modifies this
      ensures RefundOrder(old(State()), o, amount, mode) == Ok(State())
    {
      RefundUnfolds(State(), o, amount, mode);
      hide RefundOrder, Post, ReverseCashback, ReverseReferral, ExuShare;
      var order := orders[o];
      var exuAmount := ExuShare(order, amount);
      var cashAmount := amount - exuAmount;
      var id := |refunds|;
      refunds := refunds + [Refund(id, o, amount, mode)];
      ReverseCashbackOf(o);
      ReverseReferralOf(o);
      if 0 < exuAmount {
        var tx := CreateTransaction(order.user, RefundToWallet, exuAmount, Some(o), Some(RefundExuKey(id)));
      }
      if mode == ToWallet && 0 < cashAmount {
        var tx := CreateTransaction(order.user, RefundToWallet, cashAmount, Some(o), Some(RefundCashKey(id)));
      }
      orders := orders[o := orders[o].(status := Refunded, refunded := order.refunded + amount)];
    }

    /** The nightly job, over the rows its query returned. */
    method ExpireWallets(rows: seq<UserId>)
      requires ListsExpired(State(), rows)
      modifies this`wallets, this`ledger
      ensures State() == Wallets.ExpireWallets(old(State()), rows)
      ensures old(Valid()) ==> Valid()
    {
      StepValid(State(), ExpireBalances(rows), Wallets.ExpireWallets(State(), rows));
      hide Inv, Post, Expired;
      var snapshot := wallets;
      var i := 0;
      assert rows[0..] == rows;
      while i < |rows|
        invariant i <= |rows| && snapshot == old(wallets)
        invariant forall k :: 0 <= k < |rows| ==> rows[k] in snapshot
        invariant ExpireRows(State(), rows[i..], snapshot) == Wallets.ExpireWallets(old(State()), rows)
        modifies this`wallets, this`ledger
      {
        var user, wallet := rows[i], snapshot[rows[i]];
        assert rows[i..][1..] == rows[i + 1..];
        var balance := wallet.balance;
        if 0 < balance {
          var id := CreateTransaction(user, ExpiryDebit, -balance, None, Some(ExpiryKey(user, wallet.expiresAt)));
        }
        i := i + 1;
      }
    }

    /** One UPDATE statement over the holds. */
    method ExpireHolds()
      modifies this`holds
      ensures State() == Wallets.ExpireHolds(old(State()))
      ensures old(Valid()) ==> Valid()
    {
      holds := map o | o in holds :: ExpireHold(holds[o], now);
      StepValid(old(State()), LapseHolds, State());
    }

    // ----- orders.service.ts -----

    /** createPendingOrder: the order row, then the referral, then the hold. */
    method CreatePendingOrder(user: UserId, req: CheckoutRequest) returns (id: OrderId, error: Option<CheckoutError>)
      modifies this`wallets, this`holds, this`referrals, this`orders
      ensures var expected := PlaceOrder(old(State()), user, req);
              && State() == expected.db
              && (expected.Placed? ==> error == None && id == expected.id)
              && (expected.Refused? ==> error == Some(expected.error))
      ensures old(Valid()) ==> Valid()
    {
      id := |orders|;
      if req.coupon.Some? && req.referralCode.Some? {
        return id, Some(CouponAndReferral);
      }
      var referrer := None;
      if req.referralCode.Some? {
        var valid := ValidateReferralForOrder(user, req.referralCode.value, req.subtotal, req.coupon.Some?);
        if valid.Err? {
          return id, Some(BadReferral(valid.error));
        }
        referrer := Some(valid.value);
      }
      var order := NewOrder(user, req, referrer.Some?, now);
      orders := orders + [order];
      if referrer.Some? {
        CreateOrderReferral(id, user, referrer.value);
      }
      error := None;
      if 0 < order.walletSpent {
        var refused := CreateHold(id, user, order.walletSpent);
        if refused.Some? {
          error := Some(BadHold(refused.value));
        }
      }
      StepValid(old(State()), PlaceDirect(user, req), State());
    }

    method FinalizePaidOrder(o: OrderId)
      requires o < |orders|
      modifies this`wallets, this`ledger, this`holds, this`orders, this`referrals
      ensures State() == Finalize(old(State()), o)
      ensures old(Valid()) && old(orders[o].status) == Unpaid ==> Valid()
    {
      FinalizeValid(State(), o);
      hide Inv;
      orders := orders[o := orders[o].(status := Paid)];
      CompletePaidOrderBenefits(o);
    }

    method CancelOrder(o: OrderId, user: Option<UserId>) returns (error: Option<CancelError>)
      modifies this`orders, this`holds, this`referrals
      ensures var expected := Cancel(old(State()), o, user);
              if expected.Ok? then error == None && State() == expected.value
              else error == Some(expected.error) && State() == old(State())
      ensures old(Valid()) ==> Valid()
    {
      if |orders| <= o {
        return Some(NotFound);
      }
      if user.Some? && orders[o].user != user.value {
        return Some(NotOwner);
      }
      if orders[o].status != Unpaid {
        return Some(NotPending);
      }
      orders := orders[o := orders[o].(status := Failed)];
      ReleaseHoldForOrder(o);
      ReversePendingReferralForOrder(o);
      error := None;
      StepValid(old(State()), Step.CancelOrder(o, user), State());
    }

    /** failExpiredPendingOrders over the ids its query returned: the bulk status update, then one rollback each. */
    method FailExpiredPendingOrders(ids: seq<OrderId>)
      requires forall o: OrderId :: o in ids <==> OverdueAt(orders, o, now)
      modifies this`orders, this`holds, this`referrals
      ensures State() == FailOverdue(old(State()))
      ensures old(Valid()) ==> Valid()
    {
      FailRows(ids);
      var i := 0;
      while i < |ids|
        invariant i <= |ids|
        invariant State()
                  == old(State()).(orders := FailOverdue(old(State())).orders, holds := holds, referrals := referrals)
        invariant holds == RollbackHolds(old(holds), ids[..i])
                  && referrals == RollbackReferrals(old(referrals), ids[..i])
        modifies this`holds, this`referrals
      {
        assert ids[..i + 1] == ids[..i] + [ids[i]];
        label before:
        ReleaseHoldForOrder(ids[i]);
        ReversePendingReferralForOrder(ids[i]);
        RollbackNext(old@before(State()), old(holds), old(referrals), ids[..i], ids[i]);
        i := i + 1;
      }
      assert ids[..i] == ids;
      assert holds == FailOverdue(old(State())).holds && referrals == FailOverdue(old(State())).referrals;
      StepValid(old(State()), FailOverdueOrders, State());
    }

    /** The bulk UPDATE ... SET status = 'failed'. */
    method FailRows(ids: seq<OrderId>)
      requires forall o: OrderId :: o in ids <==> OverdueAt(orders, o, now)
      modifies this`orders
      ensures orders == FailOverdue(old(State())).orders
    {
      var rows := orders;
      orders := seq(|rows|, (i: int) requires 0 <= i < |rows| =>
                      if i in ids then rows[i].(status := Failed) else rows[i]);
    }

    /** The order branch of handleIpn, after the signature and the lookup. */
    method HandleOrderIpn(o: OrderId, success: bool)
      requires o < |orders|
      modifies this
      ensures State() == OrderIpn(old(State()), o, success)
      ensures old(Valid()) ==> Valid()
    {
      if orders[o].status == Unpaid {
        if success {
          FinalizePaidOrder(o);
        } else {
          var error := CancelOrder(o, None);
        }
      }
      StepValid(old(State()), PaymentNotice(o, success), State());
    }
  }

  lemma StepValid(db: Db, step: Step, after: Db)
    requires after == Apply(db, step)
    ensures Inv(db) ==> Inv(after)
  {
    hide Inv, Apply;
    if Inv(db) {
      StepKeeps(db, step);
    }
  }

  lemma FinalizeValid(db: Db, o: OrderId)
    requires o < |db.orders|
    ensures Inv(db) && db.orders[o].status == Unpaid ==> Inv(Finalize(db, o))
  {
    hide Inv, Finalize;
    if Inv(db) && db.orders[o].status == Unpaid {
      FinalizeKeeps(db, o);
    }
  }

  lemma RefundUnfolds(db: Db, o: OrderId, amount: int, mode: RefundMode)
    requires o < |db.orders| && RefundOrder(db, o, amount, mode).Ok?
    ensures 0 <= amount
    ensures var order, id := db.orders[o], |db.refunds|;
            var exu := ExuShare(order, amount);
            var recorded := db.(refunds := db.refunds + [Refund(id, o, amount, mode)]);
            var back := ReturnToWallet(Reversals(recorded, o), order.user, exu, o, RefundExuKey(id));
            var cash := ReturnToWallet(back, order.user, amount - exu, o, RefundCashKey(id));
            RefundOrder(db, o, amount, mode)
            == Ok(Close(if mode == ToWallet then cash else back, o, order.refunded + amount))
  {
    hide ReverseCashback, ReverseReferral, Post, ExuShare;
  }

  lemma RefundValid(db: Db, o: OrderId, amount: int, mode: RefundMode)
    requires o < |db.orders|
    ensures var refunded := RefundOrder(db, o, amount, mode); Inv(db) && refunded.Ok? ==> Inv(refunded.value)
  {
    hide Inv, RefundOrder;
    if Inv(db) && RefundOrder(db, o, amount, mode).Ok? {
      RefundKeeps(db, o, amount, mode);
    }
  }

  lemma EmptyIsValid(start: Millis)
    ensures Inv(EmptyDb(start))
  {
    RunInvariant(start, []);
  }

  function RollbackHolds(holds: map<OrderId, Hold>, ids: seq<OrderId>): map<OrderId, Hold> {
    map o | o in holds :: if o in ids then ReleasedIfHeld(holds[o]) else holds[o]
  }

  function RollbackReferrals(referrals: map<OrderId, Referral>, ids: seq<OrderId>): map<OrderId, Referral> {
    map o | o in referrals :: if o in ids then ReversedIfPending(referrals[o]) else referrals[o]
  }

  /** Rolling back one more order; an id listed twice changes nothing. */
  lemma RollbackNext(db: Db, holds: map<OrderId, Hold>, referrals: map<OrderId, Referral>, ids: seq<OrderId>,
                     o: OrderId)
    requires db.holds == RollbackHolds(holds, ids) && db.referrals == RollbackReferrals(referrals, ids)
    ensures Rollback(db, o)
            == db.(holds := RollbackHolds(holds, ids + [o]), referrals := RollbackReferrals(referrals, ids + [o]))
  {
    assert ReleaseHold(db, o).holds == RollbackHolds(holds, ids + [o]);
    assert ReversePendingReferral(db, o).referrals == RollbackReferrals(referrals, ids + [o]);
  }

  /** The id a posting returns is where the log then finds the key. */
  lemma PostedIsFound(db: Db, user: UserId, tx: TxType, amount: int, order: Option<OrderId>, key: Key)
    requires amount != 0
    ensures var posted := Post(db, user, tx, amount, order, Some(key));
            FindKey(posted.db.ledger, key) == Some(posted.id)
  {
    if !Replayed(db, Some(key)) {
      FindKeyAppend(db.ledger, Post(db, user, tx, amount, order, Some(key)).db.ledger[|db.ledger|], key);
    }
  }
}
