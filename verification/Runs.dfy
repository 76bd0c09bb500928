/** Runs of the shop: any sequence of checkouts, payment notices, cancellations, cron jobs, refunds,
    admin operations and clock ticks. */
module Runs {
  import opened Domain
  import opened Ledger
  import opened Wallets
  import opened Orders
  import opened OrderView
  import opened Statements
  import opened Invariant

  datatype Step =
    | Tick(elapsed: nat)
    | SetProfile(code: Code, profile: Profile)
    | PlaceCheckout(user: UserId, req: CheckoutRequest)
    | PlaceDirect(user: UserId, req: CheckoutRequest)
    | PlaceManual(user: UserId, subtotal: int)
    | PaymentNotice(order: OrderId, success: bool)
    | CancelOrder(order: OrderId, buyer: Option<UserId>)
    | FailOverdueOrders
    | LapseHolds
    | ExpireBalances(users: seq<UserId>)
    | RefundPaid(order: OrderId, amount: int, mode: RefundMode)
    | AdjustBalance(user: UserId, amount: int)
    | CancelUserBalance(user: UserId)
    | SetStatus(user: UserId, status: WalletStatus)

  /** One handler, run to its end; PlaceDirect is submitOrder, which places an order outside the checkout. A refused
      request leaves what the handler had already written. */
  ghost function Apply(db: Db, step: Step): Db {
    match step
    case Tick(elapsed) => db.(now := db.now + elapsed)
    case SetProfile(code, profile) => db.(profiles := db.profiles[code := profile])
    case PlaceCheckout(user, req) => Checkout(db, user, req).db
    case PlaceDirect(user, req) => PlaceOrder(db, user, req).db
    case PlaceManual(user, subtotal) => ManualOrder(db, user, subtotal).db
    case PaymentNotice(o, success) => if o < |db.orders| then OrderIpn(db, o, success) else db
    case CancelOrder(o, buyer) => (var r := Cancel(db, o, buyer); if r.Ok? then r.value else db)
    case FailOverdueOrders => FailOverdue(db)
    case LapseHolds => ExpireHolds(db)
    case ExpireBalances(users) => if ListsExpired(db, users) then ExpireWallets(db, users) else db
    case RefundPaid(o, amount, mode) =>
      if o < |db.orders| then (var r := RefundOrder(db, o, amount, mode); if r.Ok? then r.value else db) else db
    case AdjustBalance(user, amount) => Adjust(db, user, amount)
    case CancelUserBalance(user) => CancelBalance(db, user)
    case SetStatus(user, status) => SetWalletStatus(db, user, status)
  }

  ghost function Run(db: Db, steps: seq<Step>): Db {
    if |steps| == 0 then db
    else Apply(Run(db, steps[..|steps| - 1]), steps[|steps| - 1])
  }

  lemma StepKeeps(db: Db, step: Step)
    requires Inv(db)
    ensures Inv(Apply(db, step)) && ViewsStep(db, Apply(db, step))
  {
    hide Books, ViewsOk, ViewAt, ViewOk, PlaceOrder, Checkout, ManualOrder, OrderIpn, FailOverdue, ExpireHolds,
         ExpireRows, Adjust, CancelBalance;
    match step
    case Tick(elapsed) => SideStepKeeps(db, Apply(db, step));
    case SetProfile(code, profile) => SideStepKeeps(db, Apply(db, step));
    case PlaceCheckout(user, req) => CheckoutKeeps(db, user, req);
    case PlaceDirect(user, req) => PlaceOrderKeeps(db, user, req);
    case PlaceManual(user, subtotal) => ManualOrderKeeps(db, user, subtotal);
    case PaymentNotice(o, success) =>
      if o < |db.orders| {
        OrderIpnKeeps(db, o, success);
      }
    case CancelOrder(o, buyer) =>
      if Cancel(db, o, buyer).Ok? {
        CancelKeeps(db, o);
      }
    case FailOverdueOrders => FailOverdueKeeps(db);
    case LapseHolds => ExpireHoldsKeeps(db);
    case ExpireBalances(users) =>
      if ListsExpired(db, users) {
        ExpireRowsKeep(db, users, db.wallets);
      }
    case RefundPaid(o, amount, mode) =>
      if o < |db.orders| && RefundOrder(db, o, amount, mode).Ok? {
        RefundKeeps(db, o, amount, mode);
      }
    case AdjustBalance(user, amount) => AdjustKeeps(db, user, amount);
    case CancelUserBalance(user) => CancelBalanceKeeps(db, user);
    case SetStatus(user, status) => SideStepKeeps(db, Apply(db, step));
  }

  lemma {:induction false} RunKeeps(db: Db, steps: seq<Step>)
    requires Inv(db)
    ensures Inv(Run(db, steps))
  {
    if |steps| > 0 {
      RunKeeps(db, steps[..|steps| - 1]);
      StepKeeps(Run(db, steps[..|steps| - 1]), steps[|steps| - 1]);
    }
  }

  lemma {:induction false} RunInvariant(start: Millis, steps: seq<Step>)
    ensures Inv(Run(EmptyDb(start), steps))
  {
    RunKeeps(EmptyDb(start), steps);
  }
}
