/** completePaidOrderBenefits commits five writes; it may stop after any of them and be run again.
    However often that happens, and whatever the rest of the shop does meanwhile, the order ends as if
    it had run once without interruption. */
module CrashRetry {
  import opened Domain
  import opened Ledger
  import opened Wallets
  import opened Orders
  import opened OrderView
  import opened Statements
  import opened Invariant
  import opened Runs
  import opened Balances

  lemma OwnHasMore(own: seq<Own>, e: Own, key: Key)
    requires OwnHas(own, key) || e.key == Some(key)
    ensures OwnHas(own + [e], key)
  {
    var more := own + [e];
    if OwnHas(own, key) {
      var i :| 0 <= i < |own| && own[i].key == Some(key);
      assert more[i].key == Some(key);
    } else {
      assert more[|own|].key == Some(key);
    }
  }

  lemma VPostHas(v: View, e: Own, key: Key)
    requires e.key.Some?
    ensures OwnHas(VPost(v, e).own, e.key.value)
    ensures OwnHas(v.own, key) ==> OwnHas(VPost(v, e).own, key)
  {
    if !OwnHas(v.own, e.key.value) {
      OwnHasMore(v.own, e, e.key.value);
      if OwnHas(v.own, key) {
        OwnHasMore(v.own, e, key);
      }
    }
  }

  // ----- what each stage has settled once it ran -----

  predicate CaptureDone(v: View) {
    0 < v.order.walletSpent && v.hold.Some? ==> v.hold.value.status != Held
  }

  predicate CashbackDone(v: View, o: OrderId) {
    CashbackDue(v.order) ==> OwnHas(v.own, CashbackKey(o))
  }

  predicate CashbackMarked(v: View) {
    !CashbackDue(v.order)
  }

  predicate RewardDone(v: View, o: OrderId) {
    VRewardDue(v) ==> OwnHas(v.own, RewardKey(o))
  }

  /** After the first n stages their effects are in place. */
  predicate Settled(v: View, o: OrderId, n: nat) {
    && (1 <= n ==> CaptureDone(v))
    && (2 <= n ==> CashbackDone(v, o))
    && (3 <= n ==> CashbackMarked(v))
    && (4 <= n ==> RewardDone(v, o))
    && (5 <= n ==> !VRewardDue(v))
  }

  lemma CaptureSettles(v: View, o: OrderId)
    ensures CaptureDone(VCapture(v, o))
  {
  }

  lemma CashbackSettles(v: View, o: OrderId)
    requires CaptureDone(v)
    ensures CaptureDone(VCashback(v, o)) && CashbackDone(VCashback(v, o), o)
  {
    if CashbackDue(v.order) {
      VPostHas(v, Own(v.order.user, OrderCashback, v.order.cashback, Some(CashbackKey(o))), CashbackKey(o));
    }
  }

  lemma RewardSettles(v: View, o: OrderId)
    requires Settled(v, o, 3)
    ensures Settled(VReward(v, o), o, 4)
  {
    if VRewardDue(v) {
      VPostHas(v, Own(v.referral.value.referrer, ReferralReward, v.referral.value.reward, Some(RewardKey(o))),
               RewardKey(o));
    }
  }

  lemma {:induction false} StagesSettle(v: View, o: OrderId, n: nat)
    requires n <= BENEFIT_STAGES
    ensures Settled(VBenefitsUpTo(v, o, n), o, n)
  {
    hide VCapture, VCashback, VReward;
    if n > 0 {
      var before := VBenefitsUpTo(v, o, n - 1);
      StagesSettle(v, o, n - 1);
      if n == 1 {
        CaptureSettles(before, o);
      } else if n == 2 {
        CashbackSettles(before, o);
      } else if n == 4 {
        RewardSettles(before, o);
      }
    }
  }

  /** A settled stage is a no-op when it runs again. */
  lemma {:induction false} SettledStagesIdle(v: View, o: OrderId, n: nat, k: nat)
    requires k <= n <= BENEFIT_STAGES && Settled(v, o, n)
    ensures VBenefitsUpTo(v, o, k) == v
  {
    if k > 0 {
      SettledStagesIdle(v, o, n, k - 1);
    }
  }

  /** Stages n+1..5 after a rerun of the first n on a settled view are what an uninterrupted run does next. */
  lemma {:induction false} RerunFrom(v: View, o: OrderId, n: nat, k: nat)
    requires n <= k <= BENEFIT_STAGES
    ensures VBenefitsUpTo(VBenefitsUpTo(v, o, n), o, k) == VBenefitsUpTo(v, o, k)
  {
    var stopped := VBenefitsUpTo(v, o, n);
    if k == n {
      StagesSettle(v, o, n);
      SettledStagesIdle(stopped, o, n, n);
    } else {
      RerunFrom(v, o, n, k - 1);
      assert VBenefitsUpTo(stopped, o, k - 1) == VBenefitsUpTo(v, o, k - 1);
      hide VCapture, VCashback, VCashbackMark, VReward, VRewardMark;
    }
  }

  lemma CompleteView(db: Db, o: OrderId)
    requires Shapes(db) && o < |db.orders|
    ensures ViewAt(CompleteBenefits(db, o), o) == VBenefitsUpTo(ViewAt(db, o), o, BENEFIT_STAGES)
  {
    hide ViewAt, Shapes, CompleteBenefits, BenefitsUpTo, VBenefitsUpTo;
    BenefitsAreAllStages(db, o);
    BenefitsView(db, o, BENEFIT_STAGES, o);
  }

  // ----- nothing else happens in between -----

  /** The same on the database itself: what the first n writes have settled for good. */
  predicate DbSettled(db: Db, o: OrderId, n: nat)
    requires o < |db.orders|
  {
    && (1 <= n && 0 < db.orders[o].walletSpent && o in db.holds ==> db.holds[o].status != Held)
    && (2 <= n && CashbackDue(db.orders[o]) ==> FindKey(db.ledger, CashbackKey(o)).Some?)
    && (3 <= n ==> !CashbackDue(db.orders[o]))
    && (4 <= n && RewardDue(db, o) ==> FindKey(db.ledger, RewardKey(o)).Some?)
    && (5 <= n ==> !RewardDue(db, o))
  }

  lemma PostFinds(db: Db, user: UserId, tx: TxType, amount: int, order: Option<OrderId>, key: Key)
    requires amount != 0
    ensures FindKey(Post(db, user, tx, amount, order, Some(key)).db.ledger, key).Some?
  {
    if !Replayed(db, Some(key)) {
      FindKeyAppend(db.ledger, Post(db, user, tx, amount, order, Some(key)).db.ledger[|db.ledger|], key);
    }
  }

  lemma {:induction false} DbStagesSettle(db: Db, o: OrderId, n: nat)
    requires o < |db.orders| && n <= BENEFIT_STAGES
    ensures DbSettled(BenefitsUpTo(db, o, n), o, n)
  {
    hide FindKey;
    if n > 0 {
      var before := BenefitsUpTo(db, o, n - 1);
      DbStagesSettle(db, o, n - 1);
      if n == 2 && CashbackDue(before.orders[o]) {
        PostFinds(before, before.orders[o].user, OrderCashback, before.orders[o].cashback, Some(o), CashbackKey(o));
      } else if n == 4 && RewardDue(before, o) {
        PostFinds(before, before.referrals[o].referrer, ReferralReward, before.referrals[o].reward, Some(o),
                  RewardKey(o));
      }
    }
  }

  lemma {:induction false} DbSettledIdle(db: Db, o: OrderId, n: nat, k: nat)
    requires o < |db.orders| && k <= n <= BENEFIT_STAGES && DbSettled(db, o, n)
    ensures BenefitsUpTo(db, o, k) == db
  {
    hide FindKey;
    if k > 0 {
      DbSettledIdle(db, o, n, k - 1);
    }
  }

  /** Stopped after n writes and run again at once, completePaidOrderBenefits leaves the very database, row for row,
      that one uninterrupted run would have left. */
  lemma {:induction false} ResumeIsExact(db: Db, o: OrderId, n: nat, k: nat)
    requires o < |db.orders| && n <= k <= BENEFIT_STAGES
    ensures BenefitsUpTo(BenefitsUpTo(db, o, n), o, k) == BenefitsUpTo(db, o, k)
  {
    if k == n {
      DbStagesSettle(db, o, n);
      DbSettledIdle(BenefitsUpTo(db, o, n), o, n, n);
    } else {
      ResumeIsExact(db, o, n, k - 1);
      hide CaptureStage, CashbackStage, CashbackMarkStage, RewardStage, RewardMarkStage;
    }
  }

  // ----- the rest of the shop goes on in between -----

  predicate Refunds(db: Db, step: Step, o: OrderId) {
    step.RefundPaid? && step.order == o < |db.orders| && RefundOrder(db, o, step.amount, step.mode).Ok?
  }

  predicate Lapses(db: Db, step: Step, o: OrderId) {
    step.LapseHolds? && o in db.holds && ExpireHold(db.holds[o], db.now) != db.holds[o]
  }

  /** Any step but an accepted refund of this order and the lapse of its own held hold. */
  predicate Elsewhere(db: Db, step: Step, o: OrderId) {
    !Refunds(db, step, o) && !Lapses(db, step, o)
  }

  lemma SideStepElsewhere(db: Db, after: Db, o: OrderId)
    requires Books(db) && SameOrders(db, after) && db.now <= after.now && o < |db.orders|
    requires db.wallets.Keys <= after.wallets.Keys
    requires forall u :: u in after.wallets ==>
               after.wallets[u].balance == WalletOf(db.wallets, u).balance
                 && after.wallets[u].expiresAt == WalletOf(db.wallets, u).expiresAt
    ensures Books(after) && ViewAt(after, o) == ViewAt(db, o)
  {
    assert BalancesAreTotals(after.wallets, after.ledger);
    assert ExpiryOk(after.wallets, after.ledger, after.now);
    assert Shapes(after) && IdsOk(after);
  }

  lemma PlainPostElsewhere(db: Db, user: UserId, tx: TxType, amount: int, key: Option<Key>, o: OrderId)
    requires Books(db) && amount != 0 && Expirable(db, user, tx, amount, key) && o < |db.orders|
    requires key.Some? ==> key.value.ExpiryKey?
    ensures var after := Post(db, user, tx, amount, None, key).db;
            Books(after) && o < |after.orders| && ViewAt(after, o) == ViewAt(db, o)
  {
    PostKeepsBooks(db, user, tx, amount, None, key);
    BooksShapes(db);
    PlainPostView(db, user, tx, amount, key, o);
    hide Books, Shapes, ViewAt, Post;
  }

  lemma PlaceElsewhere(db: Db, user: UserId, req: CheckoutRequest, o: OrderId)
    requires Books(db) && o < |db.orders|
    ensures var r := PlaceOrder(db, user, req);
            && Books(r.db) && o < |r.db.orders| && ViewAt(r.db, o) == ViewAt(db, o)
            && (r.Placed? ==> Books(Finalize(r.db, r.id)) && ViewAt(Finalize(r.db, r.id), o) == ViewAt(db, o))
  {
    BooksShapes(db);
    PlaceOrderOpens(db, user, req);
    var r := PlaceOrder(db, user, req);
    if r.db != db {
      OpenedElsewhere(db, r.db, r.db.orders[|db.orders|], o);
    }
    BooksShapes(r.db);
    hide PlaceOrder, Books, ViewAt, Finalize, Shapes;
    if r.Placed? {
      FinalizeBooks(r.db, r.id);
      FinalizeView(r.db, r.id, o);
    }
  }

  lemma OpenedElsewhere(db: Db, after: Db, order: Order, o: OrderId)
    requires Books(db) && Opened(db, after, order) && o < |db.orders|
    ensures Books(after) && ViewAt(after, o) == ViewAt(db, o)
  {
    OpenedBooks(db, after, order);
  }

  lemma ExpireRowElsewhere(db: Db, user: UserId, row: Wallet, o: OrderId)
    requires Books(db) && o < |db.orders| && user in db.wallets && db.wallets[user] == row && Expired(row, db.now)
    ensures var after := ExpireRow(db, user, row);
            Books(after) && o < |after.orders| && ViewAt(after, o) == ViewAt(db, o)
  {
    if 0 < row.balance {
      var key := ExpiryKey(user, row.expiresAt);
      assert Expirable(db, user, ExpiryDebit, -row.balance, Some(key));
      hide Books, ViewAt, Post, Expirable;
      PlainPostElsewhere(db, user, ExpiryDebit, -row.balance, Some(key), o);
    }
  }

  lemma OtherRowsStay(db: Db, user: UserId, row: Wallet)
    requires Books(db) && user in db.wallets && db.wallets[user] == row && Expired(row, db.now)
    ensures var after := ExpireRow(db, user, row);
            && after.now == db.now
            && forall u :: u in db.wallets && u != user ==> u in after.wallets && after.wallets[u] == db.wallets[u]
  {
    ExpireRowEmpties(db, user, row);
    hide ExpireRow, Emptied;
  }

  lemma {:induction false} ExpireRowsElsewhere(db: Db, users: seq<UserId>, rows: map<UserId, Wallet>, o: OrderId)
    requires Books(db) && o < |db.orders|
    requires forall i, j :: 0 <= i < j < |users| ==> users[i] != users[j]
    requires forall i :: 0 <= i < |users| ==> users[i] in rows && IsRow(db, users[i], rows)
    ensures var after := ExpireRows(db, users, rows);
            Books(after) && o < |after.orders| && ViewAt(after, o) == ViewAt(db, o)
    decreases |users|
  {
    hide Books, ViewAt, Expired, ExpireRow;
    if |users| > 0 {
      ExpireRowElsewhere(db, users[0], rows[users[0]], o);
      OtherRowsStay(db, users[0], rows[users[0]]);
      ExpireRowsElsewhere(ExpireRow(db, users[0], rows[users[0]]), users[1..], rows, o);
    }
  }

  lemma NoticeElsewhere(db: Db, p: OrderId, success: bool, o: OrderId)
    requires Books(db) && o < |db.orders| && p < |db.orders| && db.orders[o].status != Unpaid
    ensures var after := OrderIpn(db, p, success);
            Books(after) && o < |after.orders| && ViewAt(after, o) == ViewAt(db, o)
  {
    BooksShapes(db);
    hide Books, Shapes, ViewAt, Finalize, Rollback, MarkFailed;
    if db.orders[p].status == Unpaid {
      FinalizeBooks(db, p);
      FinalizeView(db, p, o);
      CancelBooks(db, p);
      CancelView(db, p, o);
    }
  }

  lemma RefundElsewhere(db: Db, p: OrderId, amount: int, mode: RefundMode, o: OrderId)
    requires Books(db) && o < |db.orders| && p < |db.orders| && p != o && RefundOrder(db, p, amount, mode).Ok?
    ensures var after := RefundOrder(db, p, amount, mode).value;
            Books(after) && o < |after.orders| && ViewAt(after, o) == ViewAt(db, o)
  {
    hide Books, ViewAt, RefundRun, RefundOrder;
    RefundIsRun(db, p, amount, mode);
    RefundRunBooks(db, p, Refund(|db.refunds|, p, amount, mode));
    RefundRunView(db, p, Refund(|db.refunds|, p, amount, mode), o);
  }

  lemma {:induction false} StepElsewhere(db: Db, step: Step, o: OrderId)
    requires Books(db) && o < |db.orders| && db.orders[o].status != Unpaid && Elsewhere(db, step, o)
    ensures var after := Apply(db, step);
            Books(after) && o < |after.orders| && ViewAt(after, o) == ViewAt(db, o)
  {
    hide Books, ViewAt, PlaceOrder, Finalize, FailOverdue, ExpireHolds, ExpireRows, RefundOrder, Rollback, MarkFailed,
         Post, OrderIpn, CancelBalance;
    match step
    case Tick(elapsed) => SideStepElsewhere(db, Apply(db, step), o);
    case SetProfile(code, profile) => SideStepElsewhere(db, Apply(db, step), o);
    case SetStatus(user, status) => SideStepElsewhere(db, Apply(db, step), o);
    case PlaceCheckout(user, req) => PlaceElsewhere(db, user, req, o);
    case PlaceDirect(user, req) => PlaceElsewhere(db, user, req, o);
    case PlaceManual(user, subtotal) => PlaceElsewhere(db, user, CheckoutRequest(subtotal, None, None, 0), o);
    case PaymentNotice(p, success) =>
      if p < |db.orders| {
        NoticeElsewhere(db, p, success, o);
      }
    case CancelOrder(p, buyer) =>
      if Cancel(db, p, buyer).Ok? {
        CancelBooks(db, p);
        CancelView(db, p, o);
      }
    case FailOverdueOrders => OverdueElsewhere(db, o);
    case LapseHolds => LapseElsewhere(db, o);
    case ExpireBalances(users) =>
      if ListsExpired(db, users) {
        ExpireRowsElsewhere(db, users, db.wallets, o);
      }
    case RefundPaid(p, amount, mode) =>
      if p < |db.orders| && RefundOrder(db, p, amount, mode).Ok? {
        RefundElsewhere(db, p, amount, mode, o);
      }
    case AdjustBalance(user, amount) =>
      if amount != 0 {
        PlainPostElsewhere(db, user, if 0 < amount then ManualCredit else ManualDebit, amount, None, o);
      }
    case CancelUserBalance(user) => CancelBalanceElsewhere(db, user, o);
  }

  predicate IsHeld(hold: Option<Hold>) {
    hold.Some? && hold.value.status == Held
  }

  /** What a refund of this order adds for good. */
  lemma RefundHere(db: Db, step: Step, o: OrderId)
    requires Books(db) && Refunds(db, step, o)
    ensures var after := Apply(db, step);
            && Books(after) && o < |after.orders| && ViewAt(after, o).order.status == Refunded
            && ViewAt(after, o).hold == ViewAt(db, o).hold
            && |ViewAt(after, o).refunds| == |ViewAt(db, o).refunds| + 1
  {
    var r := Refund(|db.refunds|, o, step.amount, step.mode);
    RefundIsRun(db, o, step.amount, step.mode);
    hide Books, ViewAt, RefundOrder, RefundRun;
    RefundRunBooks(db, o, r);
    RefundRunView(db, o, r, o);
    RefundAdds(ViewAt(db, o), o, r);
  }

  lemma RefundAdds(v: View, o: OrderId, r: Refund)
    ensures var w := VRefund(v, o, r);
            w.order.status == Refunded && w.hold == v.hold && w.refunds == v.refunds + [r]
  {
    hide OwnHas, ExuShare;
  }

  lemma LapseHere(db: Db, step: Step, o: OrderId)
    requires Books(db) && o < |db.orders| && Lapses(db, step, o)
    ensures var after := Apply(db, step);
            && Books(after) && o < |after.orders| && IsHeld(ViewAt(db, o).hold)
            && ViewAt(after, o) == ViewAt(db, o).(hold := Some(ViewAt(db, o).hold.value.(status := Lapsed)))
  {
    RowsKeepBooks(db, ExpireHolds(db));
    hide Books;
  }

  lemma CancelBalanceElsewhere(db: Db, user: UserId, o: OrderId)
    requires Books(db) && o < |db.orders|
    ensures var after := CancelBalance(db, user);
            Books(after) && o < |after.orders| && ViewAt(after, o) == ViewAt(db, o)
  {
    hide Books, ViewAt, Post;
    var touched := TouchWallet(db, user);
    SideStepElsewhere(db, touched, o);
    if touched.wallets[user].balance != 0 {
      PlainPostElsewhere(touched, user, ManualCancel, -touched.wallets[user].balance, None, o);
    }
  }

  lemma OverdueElsewhere(db: Db, o: OrderId)
    requires Books(db) && o < |db.orders| && db.orders[o].status != Unpaid
    ensures var after := FailOverdue(db);
            Books(after) && o < |after.orders| && ViewAt(after, o) == ViewAt(db, o)
  {
    RowsKeepBooks(db, FailOverdue(db));
    FailOverdueView(db, o);
    hide Books, ViewAt;
  }

  lemma LapseElsewhere(db: Db, o: OrderId)
    requires Books(db) && o < |db.orders| && Elsewhere(db, LapseHolds, o)
    ensures var after := ExpireHolds(db);
            Books(after) && o < |after.orders| && ViewAt(after, o) == ViewAt(db, o)
  {
    RowsKeepBooks(db, ExpireHolds(db));
    hide Books;
  }

  /** Every step keeps the books, and leaves the rows and entries of a half-completed order alone if and only if it does
      not refund the order or lapse its held hold. */
  lemma {:induction false} StepElsewhereIff(db: Db, step: Step, o: OrderId)
    requires Books(db) && o < |db.orders| && db.orders[o].status != Unpaid
    ensures var after := Apply(db, step);
            Books(after) && o < |after.orders| && (ViewAt(after, o) == ViewAt(db, o) <==> Elsewhere(db, step, o))
  {
    hide Books, ViewAt, Apply, Refunds, Lapses;
    if Refunds(db, step, o) {
      RefundHere(db, step, o);
    } else if Lapses(db, step, o) {
      LapseHere(db, step, o);
    } else {
      StepElsewhere(db, step, o);
    }
  }

  datatype Act = Attempt(writes: nat) | Other(step: Step)

  /** Attempts at completing order o that stop after some of their writes, between steps of the rest of the shop. */
  ghost function Interrupted(db: Db, o: OrderId, acts: seq<Act>): Db {
    if |acts| == 0 then db
    else
      var before := Interrupted(db, o, acts[..|acts| - 1]);
      match acts[|acts| - 1]
      case Attempt(writes) => if o < |before.orders| && writes <= BENEFIT_STAGES then BenefitsUpTo(before, o, writes)
        else before
      case Other(step) => Apply(before, step)
  }

  /** None of the steps in between refunds the order or lapses its held hold. */
  ghost predicate OthersElsewhere(db: Db, o: OrderId, acts: seq<Act>) {
    if |acts| == 0 then true
    else
      var before := acts[..|acts| - 1];
      && OthersElsewhere(db, o, before)
      && (acts[|acts| - 1].Other? ==> Elsewhere(Interrupted(db, o, before), acts[|acts| - 1].step, o))
  }

  lemma {:induction false} BenefitsBooks(db: Db, o: OrderId, n: nat)
    requires Books(db) && o < |db.orders| && n <= BENEFIT_STAGES
    ensures Books(BenefitsUpTo(db, o, n))
  {
    hide Books, CaptureStage, CashbackStage, CashbackMarkStage, RewardStage, RewardMarkStage;
    if n > 0 {
      var before := BenefitsUpTo(db, o, n - 1);
      BenefitsBooks(db, o, n - 1);
      CaptureBooks(before, o);
      CashbackBooks(before, o);
      CashbackMarkBooks(before, o);
      RewardBooks(before, o);
      RewardMarkBooks(before, o);
    }
  }

  lemma {:induction false} BenefitsKeepRows(v: View, o: OrderId, n: nat)
    requires n <= BENEFIT_STAGES
    ensures var w := VBenefitsUpTo(v, o, n);
            && w.order.status == v.order.status && w.refunds == v.refunds
            && (w.hold == v.hold || (IsHeld(v.hold) && w.hold == Some(v.hold.value.(status := Captured))))
  {
    if n > 0 {
      BenefitsKeepRows(v, o, n - 1);
    }
  }

  /** Refunds are only added, and a hold only leaves HELD. */
  predicate Since(v: View, w: View) {
    && |v.refunds| <= |w.refunds|
    && (w.hold == v.hold || (IsHeld(v.hold) && w.hold.Some? && w.hold.value.status != Held))
  }

  /** A refund came in, or the hold lapsed before it was captured: nothing undoes either. */
  predicate Diverged(v: View, w: View) {
    |v.refunds| < |w.refunds| || (IsHeld(v.hold) && w.hold.Some? && w.hold.value.status == Lapsed)
  }

  /** Where the acts have brought the order: still on the way to where an uninterrupted completion would end, or off it
      for good. */
  predicate OnTheWay(v: View, w: View, o: OrderId, undisturbed: bool) {
    && w.order.status != Unpaid && Since(v, w)
    && (if undisturbed then VBenefitsUpTo(w, o, BENEFIT_STAGES) == VBenefitsUpTo(v, o, BENEFIT_STAGES)
        else Diverged(v, w))
  }

  lemma AttemptStays(v: View, w: View, o: OrderId, n: nat, undisturbed: bool)
    requires OnTheWay(v, w, o, undisturbed) && n <= BENEFIT_STAGES
    ensures OnTheWay(v, VBenefitsUpTo(w, o, n), o, undisturbed)
  {
    BenefitsKeepRows(w, o, n);
    RerunFrom(w, o, n, BENEFIT_STAGES);
    hide VBenefitsUpTo;
  }

  lemma {:induction false} InterruptedIs(db: Db, o: OrderId, acts: seq<Act>)
    requires Books(db) && o < |db.orders| && db.orders[o].status != Unpaid
    ensures var now := Interrupted(db, o, acts);
            Books(now) && o < |now.orders| && OnTheWay(ViewAt(db, o), ViewAt(now, o), o, OthersElsewhere(db, o, acts))
  {
    RowOfView(db, o);
    hide Books, ViewAt, Apply, BenefitsUpTo, VBenefitsUpTo, Elsewhere, OnTheWay;
    if |acts| == 0 {
      StartsOnTheWay(ViewAt(db, o), o);
    } else {
      var last := |acts| - 1;
      InterruptedIs(db, o, acts[..last]);
      var before := Interrupted(db, o, acts[..last]);
      match acts[last]
      case Attempt(writes) =>
        if writes <= BENEFIT_STAGES {
          AttemptView(before, o, writes);
          AttemptStays(ViewAt(db, o), ViewAt(before, o), o, writes, OthersElsewhere(db, o, acts[..last]));
        }
      case Other(step) => StepIs(ViewAt(db, o), before, step, o, OthersElsewhere(db, o, acts[..last]));
    }
  }

  lemma StartsOnTheWay(v: View, o: OrderId)
    requires v.order.status != Unpaid
    ensures OnTheWay(v, v, o, true)
  {
  }

  lemma StepIs(v: View, db: Db, step: Step, o: OrderId, undisturbed: bool)
    requires Books(db) && o < |db.orders| && OnTheWay(v, ViewAt(db, o), o, undisturbed)
    ensures var after := Apply(db, step);
            Books(after) && o < |after.orders|
              && OnTheWay(v, ViewAt(after, o), o, undisturbed && Elsewhere(db, step, o))
  {
    RowOfView(db, o);
    hide Books, ViewAt, Apply, VBenefitsUpTo, Refunds, Lapses;
    if Refunds(db, step, o) {
      RefundHere(db, step, o);
    } else if Lapses(db, step, o) {
      LapseHere(db, step, o);
    } else {
      StepElsewhere(db, step, o);
    }
  }

  lemma AttemptView(db: Db, o: OrderId, n: nat)
    requires Books(db) && o < |db.orders| && n <= BENEFIT_STAGES
    ensures var now := BenefitsUpTo(db, o, n);
            Books(now) && ViewAt(now, o) == VBenefitsUpTo(ViewAt(db, o), o, n)
  {
    BooksShapes(db);
    BenefitsBooks(db, o, n);
    hide Books, Shapes, ViewAt, BenefitsUpTo, VBenefitsUpTo;
    BenefitsView(db, o, n, o);
  }

  /** Off the way, completing leads somewhere else. */
  lemma DivergedEndsElsewhere(v: View, w: View, o: OrderId)
    requires Diverged(v, w)
    ensures VBenefitsUpTo(w, o, BENEFIT_STAGES) != VBenefitsUpTo(v, o, BENEFIT_STAGES)
  {
    BenefitsKeepRows(v, o, BENEFIT_STAGES);
    BenefitsKeepRows(w, o, BENEFIT_STAGES);
    hide VBenefitsUpTo;
  }

  /** However often the completion of a paid order is cut short, after whatever writes, and whatever the shop does in
      between: once it runs to its end, the order's row, hold, referral, ledger entries and refunds are those that one
      uninterrupted run would have left at the start, if and only if nothing in between refunded this order or let its
      held hold lapse. */
  lemma {:induction false} RetryConvergesIff(db: Db, o: OrderId, acts: seq<Act>)
    requires Books(db) && o < |db.orders| && db.orders[o].status != Unpaid
    ensures var now := Interrupted(db, o, acts);
            && o < |now.orders|
            && (ViewAt(CompleteBenefits(now, o), o) == ViewAt(CompleteBenefits(db, o), o)
                <==> OthersElsewhere(db, o, acts))
  {
    var now := Interrupted(db, o, acts);
    InterruptedIs(db, o, acts);
    BooksShapes(db);
    BooksShapes(now);
    hide Books, Shapes, ViewAt, CompleteBenefits, VBenefitsUpTo, Interrupted, OthersElsewhere, Since, Diverged;
    CompleteView(db, o);
    CompleteView(now, o);
    if !OthersElsewhere(db, o, acts) {
      DivergedEndsElsewhere(ViewAt(db, o), ViewAt(now, o), o);
    }
  }

  // ----- balances -----

  /** Every wallet ends with what the order's own entries add up to, plus whatever the rest of the shop posted in the
      meantime; undisturbed, the order's entries are those of an uninterrupted run. */
  lemma {:induction false} RetryBalances(db: Db, o: OrderId, acts: seq<Act>, user: UserId)
    requires Books(db) && o < |db.orders| && db.orders[o].status != Unpaid
    ensures var now := Interrupted(db, o, acts);
            && o < |now.orders|
            && WalletOf(CompleteBenefits(now, o).wallets, user).balance
               == OwnTotal(OwnEntries(CompleteBenefits(now, o).ledger, o), user) + OthersTotal(now.ledger, o, user)
            && (OthersElsewhere(db, o, acts) ==>
                  OwnEntries(CompleteBenefits(now, o).ledger, o) == OwnEntries(CompleteBenefits(db, o).ledger, o))
  {
    var now := Interrupted(db, o, acts);
    InterruptedIs(db, o, acts);
    RetryConvergesIff(db, o, acts);
    SettledBalance(now, o, user);
    RowsOfView(CompleteBenefits(now, o), o);
    RowsOfView(CompleteBenefits(db, o), o);
    hide Books, OthersElsewhere, Interrupted, OwnTotal, OthersTotal, OwnEntries, CompleteBenefits, RefundsOf, ViewAt,
         OnTheWay;
  }

  lemma SettledBalance(db: Db, o: OrderId, user: UserId)
    requires Books(db) && o < |db.orders|
    ensures WalletOf(CompleteBenefits(db, o).wallets, user).balance
         == OwnTotal(OwnEntries(CompleteBenefits(db, o).ledger, o), user) + OthersTotal(db.ledger, o, user)
  {
    BenefitsAreAllStages(db, o);
    BenefitsBooks(db, o, BENEFIT_STAGES);
    BenefitsOthers(db, o, BENEFIT_STAGES, user);
    TotalSplits(CompleteBenefits(db, o).ledger, o, user);
    hide Total, OwnTotal, OthersTotal, OwnEntries, CompleteBenefits, BenefitsUpTo, Shapes, ExpiryOk, IdsOk,
         OneLiveReferral, WalletOf;
  }
}
