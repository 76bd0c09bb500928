/** What each wallet operation does to the database. */
module Wallets {
  import opened Domain
  import opened Ledger
  import Rounding

  // ----- holds -----

  function Weight(hold: Hold, user: UserId, now: Millis): nat {
    if hold.user == user && hold.status == Held && now < hold.expiresAt then hold.amount else 0
  }

  /** The SQL sum over one user's unexpired HELD holds. */
  ghost function ActiveHolds(holds: map<OrderId, Hold>, user: UserId, now: Millis): nat
    decreases |holds|
  {
    if holds == map[] then 0
    else
      var o :| o in holds;
      Weight(holds[o], user, now) + ActiveHolds(holds - {o}, user, now)
  }

  lemma {:induction false} ActiveHoldsSplit(holds: map<OrderId, Hold>, o: OrderId, user: UserId, now: Millis)
    requires o in holds
    ensures ActiveHolds(holds, user, now) == Weight(holds[o], user, now) + ActiveHolds(holds - {o}, user, now)
    decreases |holds|
  {
    var p :| p in holds
      && ActiveHolds(holds, user, now) == Weight(holds[p], user, now) + ActiveHolds(holds - {p}, user, now);
    if p != o {
      ActiveHoldsSplit(holds - {p}, o, user, now);
      ActiveHoldsSplit(holds - {o}, p, user, now);
      assert holds - {p} - {o} == holds - {o} - {p};
    }
  }

  lemma ActiveHoldsUpdate(holds: map<OrderId, Hold>, o: OrderId, hold: Hold, user: UserId, now: Millis)
    ensures ActiveHolds(holds[o := hold], user, now) == Weight(hold, user, now) + ActiveHolds(holds - {o}, user, now)
  {
    ActiveHoldsSplit(holds[o := hold], o, user, now);
    assert holds[o := hold] - {o} == holds - {o};
  }

  predicate Spendable(wallet: Wallet, now: Millis) {
    wallet.status == Active && !(wallet.expiresAt.Some? && wallet.expiresAt.value < now)
  }

  ghost function Available(db: Db, user: UserId): nat {
    var wallet := WalletOf(db.wallets, user);
    var left := wallet.balance - ActiveHolds(db.holds, user, db.now);
    if !Spendable(wallet, db.now) || left < 0 then 0 else left
  }

  datatype HoldError = WalletLocked | NotEnough

  /** createHold: a refusal rolls the transaction back. */
  ghost function CreateHold(db: Db, o: OrderId, user: UserId, amount: int): (r: Result<Db, HoldError>)
    ensures r.Ok? ==> r.value.orders == db.orders
  {
    if amount <= 0 || o in db.holds then Ok(db)
    else if WalletOf(db.wallets, user).status != Active then Err(WalletLocked)
    else if Available(db, user) < amount then Err(NotEnough)
    else Ok(db.(wallets := db.wallets[user := WalletOf(db.wallets, user)],
                holds := db.holds[o := Hold(user, amount, Held, db.now + HOLD_LIFETIME)]))
  }

  function CaptureHold(db: Db, o: OrderId): Db {
    if o in db.holds && db.holds[o].status == Held then
      var hold := db.holds[o];
      var posted := Post(db, hold.user, RedemptionCapture, Minus(hold.amount), Some(o), Some(CaptureKey(o))).db;
      posted.(holds := posted.holds[o := hold.(status := Captured)])
    else db
  }

  function ReleaseHold(db: Db, o: OrderId): Db {
    if o in db.holds && db.holds[o].status == Held then
      db.(holds := db.holds[o := db.holds[o].(status := Released)])
    else db
  }

  function ExpireHold(hold: Hold, now: Millis): Hold {
    if hold.status == Held && hold.expiresAt < now then hold.(status := Lapsed) else hold
  }

  function ExpireHolds(db: Db): Db {
    db.(holds := map o | o in db.holds :: ExpireHold(db.holds[o], db.now))
  }

  // ----- referrals -----

  function ReversePendingReferral(db: Db, o: OrderId): Db {
    if o in db.referrals && db.referrals[o].status == Pending then
      db.(referrals := db.referrals[o := db.referrals[o].(status := Reversed)])
    else db
  }

  datatype ReferralError =
    | WithCoupon | BelowMinimum | UnknownCode | ReferrerLocked | OwnCode | NotFirstOrder | AlreadyUsed

  predicate Live(referral: Referral) {
    referral.status == Pending || referral.status == Credited
  }

  ghost function ValidateReferral(db: Db, user: UserId, code: Code, subtotal: int, hasCoupon: bool)
    : (r: Result<UserId, ReferralError>)
  {
    if hasCoupon then Err(WithCoupon)
    else if subtotal < REFERRAL_MIN_ORDER then Err(BelowMinimum)
    else if code !in db.profiles || !db.profiles[code].isActive then Err(UnknownCode)
    else
      var referrer := db.profiles[code].user;
      if WalletOf(db.wallets, referrer).status != Active then Err(ReferrerLocked)
      else if referrer == user then Err(OwnCode)
      else if exists i :: 0 <= i < |db.orders| && db.orders[i].user == user && db.orders[i].status == Paid then
        Err(NotFirstOrder)
      else if exists o :: o in db.referrals && db.referrals[o].referee == user && Live(db.referrals[o]) then
        Err(AlreadyUsed)
      else Ok(referrer)
  }

  function CreateReferral(db: Db, o: OrderId, referee: UserId, referrer: UserId): Db {
    if o in db.referrals then db
    else db.(referrals := db.referrals[o := Referral(referrer, referee, REFERRAL_REWARD, Pending, None, None)])
  }

  // ----- completePaidOrderBenefits, one committed write at a time -----

  function CaptureStage(db: Db, o: OrderId): (r: Db)
    requires o < |db.orders|
    ensures |r.orders| == |db.orders| && db.ledger <= r.ledger
  {
    if 0 < db.orders[o].walletSpent then CaptureHold(db, o) else db
  }

  predicate CashbackDue(order: Order) {
    0 < order.cashback && order.cashbackTx.None?
  }

  function CashbackStage(db: Db, o: OrderId): (r: Db)
    requires o < |db.orders|
    ensures |r.orders| == |db.orders| && db.ledger <= r.ledger
  {
    var order := db.orders[o];
    if CashbackDue(order) then
      Post(db, order.user, OrderCashback, order.cashback, Some(o), Some(CashbackKey(o))).db
    else db
  }

  /** Writing back the id returned by the cashback posting. */
  function CashbackMarkStage(db: Db, o: OrderId): (r: Db)
    requires o < |db.orders|
    ensures |r.orders| == |db.orders| && db.ledger <= r.ledger
  {
    var id := FindKey(db.ledger, CashbackKey(o));
    if CashbackDue(db.orders[o]) && id.Some? then
      db.(orders := db.orders[o := db.orders[o].(cashbackTx := id)])
    else db
  }

  predicate RewardDue(db: Db, o: OrderId) {
    o in db.referrals && db.referrals[o].status == Pending && db.referrals[o].rewardTx.None?
  }

  function RewardStage(db: Db, o: OrderId): (r: Db)
    ensures |r.orders| == |db.orders| && db.ledger <= r.ledger
  {
    if RewardDue(db, o) then
      var referral := db.referrals[o];
      Post(db, referral.referrer, ReferralReward, referral.reward, Some(o), Some(RewardKey(o))).db
    else db
  }

  function RewardMarkStage(db: Db, o: OrderId): (r: Db)
    ensures |r.orders| == |db.orders| && db.ledger <= r.ledger
  {
    var id := FindKey(db.ledger, RewardKey(o));
    if RewardDue(db, o) && id.Some? then
      db.(referrals := db.referrals[o := db.referrals[o].(rewardTx := id, status := Credited)])
    else db
  }

  const BENEFIT_STAGES := 5

  /** The first n committed writes of completePaidOrderBenefits. */
  function BenefitsUpTo(db: Db, o: OrderId, n: nat): (r: Db)
    requires o < |db.orders| && n <= BENEFIT_STAGES
    ensures |r.orders| == |db.orders| && db.ledger <= r.ledger
  {
    if n == 0 then db
    else
      var before := BenefitsUpTo(db, o, n - 1);
      if n == 1 then CaptureStage(before, o)
      else if n == 2 then CashbackStage(before, o)
      else if n == 3 then CashbackMarkStage(before, o)
      else if n == 4 then RewardStage(before, o)
      else RewardMarkStage(before, o)
  }

  function CompleteBenefits(db: Db, o: OrderId): (r: Db)
    requires o < |db.orders|
    ensures |r.orders| == |db.orders| && db.ledger <= r.ledger
  {
    RewardMarkStage(RewardStage(CashbackMarkStage(CashbackStage(CaptureStage(db, o), o), o), o), o)
  }

  // ----- admin operations -----

  function Adjust(db: Db, user: UserId, amount: int): Db {
    if amount == 0 then db
    else Post(db, user, if 0 < amount then ManualCredit else ManualDebit, amount, None, None).db
  }

  function TouchWallet(db: Db, user: UserId): Db {
    db.(wallets := db.wallets[user := WalletOf(db.wallets, user)])
  }

  function CancelBalance(db: Db, user: UserId): Db {
    var touched := TouchWallet(db, user);
    var balance := touched.wallets[user].balance;
    if balance == 0 then touched
    else Post(touched, user, ManualCancel, -balance, None, None).db
  }

  function SetWalletStatus(db: Db, user: UserId, status: WalletStatus): Db {
    db.(wallets := db.wallets[user := WalletOf(db.wallets, user).(status := status)])
  }

  // ----- refunds -----

  datatype RefundError = NotRefundable | NegativeAmount | TooMuch

  function OrderValue(order: Order): nat {
    order.payable + order.walletSpent
  }

  /** The part of a refund that goes back to the wallet as eXu. */
  function ExuShare(order: Order, amount: nat): int {
    if OrderValue(order) == 0 then 0
    else Rounding.RoundDiv(amount * order.walletSpent, OrderValue(order))
  }

  function ReverseCashback(db: Db, o: OrderId): (r: Db)
    requires o < |db.orders|
    ensures |r.orders| == |db.orders| && db.ledger <= r.ledger
  {
    var order := db.orders[o];
    if 0 < order.cashback && !order.cashbackReversed then
      var posted := Post(db, order.user, OrderCashbackReversal, Minus(order.cashback), Some(o),
                         Some(CashbackReversalKey(o))).db;
      posted.(orders := posted.orders[o := order.(cashbackReversed := true)])
    else db
  }

  function ReverseReferral(db: Db, o: OrderId): (r: Db)
    ensures |r.orders| == |db.orders| && db.ledger <= r.ledger
  {
    if o !in db.referrals then db
    else
      var referral := db.referrals[o];
      if referral.status == Credited && referral.reversalTx.None? then
        var posted := Post(db, referral.referrer, ReferralRewardReversal, Minus(referral.reward), Some(o),
                           Some(RewardReversalKey(o)));
        posted.db.(referrals := posted.db.referrals[o := referral.(reversalTx := Some(posted.id), status := Reversed)])
      else ReversePendingReferral(db, o)
  }

  function ReturnToWallet(db: Db, user: UserId, amount: int, o: OrderId, key: Key): (r: Db)
    ensures |r.orders| == |db.orders| && db.ledger <= r.ledger
  {
    if 0 < amount then Post(db, user, RefundToWallet, amount, Some(o), Some(key)).db else db
  }

  function RefundOrder(db: Db, o: OrderId, amount: int, mode: RefundMode): Result<Db, RefundError>
    requires o < |db.orders|
  {
    var order := db.orders[o];
    if order.status != Paid && order.status != Refunded then Err(NotRefundable)
    else if amount < 0 then Err(NegativeAmount)
    else if OrderValue(order) - order.refunded < amount then Err(TooMuch)
    else
      var id := |db.refunds|;
      var exu := ExuShare(order, amount);
      var d1 := db.(refunds := db.refunds + [Refund(id, o, amount, mode)]);
      var d2 := ReverseCashback(d1, o);
      var d3 := ReverseReferral(d2, o);
      var d4 := ReturnToWallet(d3, order.user, exu, o, RefundExuKey(id));
      var d5 := if mode == ToWallet then ReturnToWallet(d4, order.user, amount - exu, o, RefundCashKey(id)) else d4;
      Ok(d5.(orders := d5.orders[o := d5.orders[o].(status := Refunded, refunded := order.refunded + amount)]))
  }

  // ----- the expiry job -----

  predicate Expired(wallet: Wallet, now: Millis) {
    wallet.status == Active && wallet.expiresAt.Some? && wallet.expiresAt.value < now
  }

  /** A possible answer of the job's query: every expired wallet once, in some order. */
  predicate ListsExpired(db: Db, users: seq<UserId>) {
    && (forall i, j :: 0 <= i < j < |users| ==> users[i] != users[j])
    && (forall i :: 0 <= i < |users| ==> users[i] in db.wallets && Expired(db.wallets[users[i]], db.now))
    && (forall u :: u in db.wallets && Expired(db.wallets[u], db.now) ==> u in users)
  }

  function ExpireRow(db: Db, user: UserId, row: Wallet): Db {
    if row.balance <= 0 then db
    else Post(db, user, ExpiryDebit, -row.balance, None, Some(ExpiryKey(user, row.expiresAt))).db
  }

  /** The debit loop over the rows read at the start. */
  function ExpireRows(db: Db, users: seq<UserId>, rows: map<UserId, Wallet>): Db
    requires forall i :: 0 <= i < |users| ==> users[i] in rows
    decreases |users|
  {
    if |users| == 0 then db
    else ExpireRows(ExpireRow(db, users[0], rows[users[0]]), users[1..], rows)
  }

  function ExpireWallets(db: Db, users: seq<UserId>): Db
    requires ListsExpired(db, users)
  {
    ExpireRows(db, users, db.wallets)
  }
}
