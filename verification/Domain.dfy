/** The rows of the shop's tables, the idempotency keys and the constants.
    All money is a whole number of VND, all instants are milliseconds. */
module Domain {
  type UserId = nat
  type OrderId = nat
  type TxId = nat
  type Millis = int
  type Code = string
  type pos = n: int | 0 < n witness 1

  datatype Option<+T> = None | Some(value: T)
  datatype Result<+T, +E> = Ok(value: T) | Err(error: E)

  const MINUTE: Millis := 60 * 1000
  const DAY: Millis := 24 * 60 * MINUTE
  const EXU_EXPIRY: Millis := 365 * DAY
  const HOLD_LIFETIME: Millis := 30 * MINUTE
  const PENDING_LIFETIME: Millis := 30 * MINUTE
  const EXU_CASHBACK_PERCENT := 2
  const REFERRAL_MIN_ORDER := 100_000
  const REFERRAL_DISCOUNT := 10_000
  const REFERRAL_REWARD: pos := 10_000

  datatype WalletStatus = Active | Locked
  datatype TxType =
    | OrderCashback | OrderCashbackReversal
    | ReferralReward | ReferralRewardReversal
    | RefundToWallet
    | ManualCredit | ManualDebit | ManualCancel
    | RedemptionCapture | RedemptionRelease
    | ExpiryDebit
  datatype HoldStatus = Held | Captured | Released | Lapsed
  datatype ReferralStatus = Pending | Credited | Reversed
  datatype OrderStatus = Unpaid | Paid | Failed | Refunded
  datatype RefundMode = ToWallet | DirectBank

  /** One constructor per key prefix of the service, so distinct keys are distinct strings. */
  datatype Key =
    | CaptureKey(order: OrderId)
    | CashbackKey(order: OrderId)
    | CashbackReversalKey(order: OrderId)
    | RewardKey(order: OrderId)
    | RewardReversalKey(order: OrderId)
    | RefundExuKey(refund: nat)
    | RefundCashKey(refund: nat)
    | ExpiryKey(user: UserId, at: Option<Millis>)

  datatype Wallet = Wallet(balance: int, status: WalletStatus, expiresAt: Option<Millis>)
  datatype Entry = Entry(user: UserId, tx: TxType, amount: int, balanceAfter: int,
                         order: Option<OrderId>, key: Option<Key>)
  datatype Hold = Hold(user: UserId, amount: pos, status: HoldStatus, expiresAt: Millis)
  datatype Profile = Profile(user: UserId, isActive: bool)
  datatype Referral = Referral(referrer: UserId, referee: UserId, reward: pos, status: ReferralStatus,
                               rewardTx: Option<TxId>, reversalTx: Option<TxId>)
  datatype Order = Order(user: UserId, status: OrderStatus, subtotal: int, couponDiscount: int,
                         referralDiscount: int, walletSpent: nat, payable: nat, cashback: nat,
                         cashbackTx: Option<TxId>, cashbackReversed: bool, refunded: int, createdAt: Millis)
  datatype Refund = Refund(id: nat, order: OrderId, amount: nat, mode: RefundMode)

  /** The whole database: wallets by owner, the append-only transaction log, holds and referrals by their
      unique order id, referral profiles by code, orders and refunds by id. */
  datatype Db = Db(now: Millis, wallets: map<UserId, Wallet>, ledger: seq<Entry>, holds: map<OrderId, Hold>,
                   profiles: map<Code, Profile>, referrals: map<OrderId, Referral>,
                   orders: seq<Order>, refunds: seq<Refund>)

  function Minus(n: int): int { -n }

  function EmptyDb(now: Millis): Db {
    Db(now, map[], [], map[], map[], map[], [], [])
  }
}
