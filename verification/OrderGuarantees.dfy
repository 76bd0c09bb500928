/** What the order statement means: captures, cashback, referral rewards and refunds of one order. */
module OrderGuarantees {
  import opened Domain
  import opened Ledger
  import opened Wallets
  import opened Orders
  import opened OrderView
  import opened Statements
  import opened Invariant
  import opened Runs
  import Pricing
  import Rounding

  datatype Pick = OfTypes(txs: set<TxType>) | ExuReturns

  predicate Picked(pick: Pick, e: Own) {
    match pick
    case OfTypes(txs) => e.tx in txs
    case ExuReturns => e.key.Some? && e.key.value.RefundExuKey?
  }

  /** The sum of the amounts of the picked entries. */
  function Sum(own: seq<Own>, pick: Pick): int {
    if |own| == 0 then 0
    else Sum(own[..|own| - 1], pick) + if Picked(pick, own[|own| - 1]) then own[|own| - 1].amount else 0
  }

  function Count(own: seq<Own>, pick: Pick): nat {
    if |own| == 0 then 0
    else Count(own[..|own| - 1], pick) + if Picked(pick, own[|own| - 1]) then 1 else 0
  }

  const CAPTURES := OfTypes({RedemptionCapture})
  const CASHBACKS := OfTypes({OrderCashback, OrderCashbackReversal})
  const REWARDS := OfTypes({ReferralReward, ReferralRewardReversal})
  const RETURNS := OfTypes({RefundToWallet})

  lemma {:induction false} SumConcat(a: seq<Own>, b: seq<Own>, pick: Pick)
    ensures Sum(a + b, pick) == Sum(a, pick) + Sum(b, pick)
    ensures Count(a + b, pick) == Count(a, pick) + Count(b, pick)
  {
    if |b| == 0 {
      assert a + b == a;
    } else {
      assert (a + b)[..|a + b| - 1] == a + b[..|b| - 1];
      SumConcat(a, b[..|b| - 1], pick);
    }
  }

  lemma SumPaid(v: View, o: OrderId, pick: Pick)
    ensures Sum(PaidEntries(v, o), pick) == Sum(CapturePart(v, o), pick) + Sum(CashbackPart(v, o), pick)
            + Sum(RewardPart(v, o), pick)
    ensures Count(PaidEntries(v, o), pick) == Count(CapturePart(v, o), pick) + Count(CashbackPart(v, o), pick)
            + Count(RewardPart(v, o), pick)
  {
    SumConcat(CapturePart(v, o), CashbackPart(v, o), pick);
    SumConcat(CapturePart(v, o) + CashbackPart(v, o), RewardPart(v, o), pick);
  }

  lemma SumRefunded(v: View, o: OrderId, pick: Pick)
    requires v.order.status == Refunded
    ensures Sum(Statement(v, o), pick) == Sum(PaidEntries(v, o), pick)
              + Sum(CashbackReversalPart(v, o), pick) + Sum(RewardReversalPart(v, o), pick)
                + Sum(RefundEntries(v.order, v.refunds), pick)
    ensures Count(Statement(v, o), pick) == Count(PaidEntries(v, o), pick)
              + Count(CashbackReversalPart(v, o), pick) + Count(RewardReversalPart(v, o), pick)
                + Count(RefundEntries(v.order, v.refunds), pick)
  {
    SumConcat(CashbackReversalPart(v, o), RewardReversalPart(v, o), pick);
    SumConcat(PaidEntries(v, o), ReversalEntries(v, o), pick);
    SumConcat(PaidEntries(v, o) + ReversalEntries(v, o), RefundEntries(v.order, v.refunds), pick);
  }

  lemma {:induction false} RefundsOnlyReturn(order: Order, refunds: seq<Refund>, pick: Pick)
    requires pick in {CAPTURES, CASHBACKS, REWARDS}
    ensures Sum(RefundEntries(order, refunds), pick) == 0 && Count(RefundEntries(order, refunds), pick) == 0
  {
    if |refunds| > 0 {
      var last := |refunds| - 1;
      RefundsOnlyReturn(order, refunds[..last], pick);
      SumConcat(RefundEntries(order, refunds[..last]), RefundEntry(order, refunds[last]), pick);
      RefundEntrySums(order, refunds[last]);
    }
  }

  lemma RefundEntrySums(order: Order, r: Refund)
    ensures forall pick | pick in {CAPTURES, CASHBACKS, REWARDS} ::
              Sum(RefundEntry(order, r), pick) == 0 && Count(RefundEntry(order, r), pick) == 0
    ensures var exu := ExuShare(order, r.amount); var cash := CashShare(order, r);
            && Sum(RefundEntry(order, r), ExuReturns) == (if 0 < exu then exu else 0)
            && Sum(RefundEntry(order, r), RETURNS) == (if 0 < exu then exu else 0) + (if 0 < cash then cash else 0)
  {
    var exu := ExuShare(order, r.amount);
    var cash := CashShare(order, r);
    var a := if 0 < exu then [Own(order.user, RefundToWallet, exu, Some(RefundExuKey(r.id)))] else [];
    var b := if 0 < cash then [Own(order.user, RefundToWallet, cash, Some(RefundCashKey(r.id)))] else [];
    forall pick ensures Sum(a + b, pick) == Sum(a, pick) + Sum(b, pick)
           && Count(a + b, pick) == Count(a, pick) + Count(b, pick) {
      SumConcat(a, b, pick);
    }
  }

  // ----- captures, cashback, rewards -----

  predicate HoldCaptured(v: View) {
    v.hold.Some? && v.hold.value.status == Captured
  }

  function RewardOf(v: View): int {
    if v.referral.Some? then v.referral.value.reward else 0
  }

  lemma PaidSums(v: View, o: OrderId)
    ensures Count(PaidEntries(v, o), CAPTURES) == (if HoldCaptured(v) then 1 else 0)
    ensures Sum(PaidEntries(v, o), CAPTURES) == (if HoldCaptured(v) then Minus(v.order.walletSpent) else 0)
    ensures Sum(PaidEntries(v, o), CASHBACKS) == v.order.cashback
    ensures Sum(PaidEntries(v, o), REWARDS) == RewardOf(v)
  {
    PartSums(v, o);
    SumPaid(v, o, CAPTURES);
    SumPaid(v, o, CASHBACKS);
    SumPaid(v, o, REWARDS);
    hide Sum, Count, PaidEntries, CapturePart, CashbackPart, RewardPart;
  }

  /** Each part is picked by its own sum only. */
  lemma PartSums(v: View, o: OrderId)
    ensures Count(CapturePart(v, o), CAPTURES) == (if HoldCaptured(v) then 1 else 0)
    ensures Sum(CapturePart(v, o), CAPTURES) == (if HoldCaptured(v) then Minus(v.order.walletSpent) else 0)
    ensures Count(CashbackPart(v, o), CAPTURES) == Count(RewardPart(v, o), CAPTURES) == 0
    ensures Sum(CashbackPart(v, o), CAPTURES) == Sum(RewardPart(v, o), CAPTURES) == 0
    ensures Sum(CashbackPart(v, o), CASHBACKS) == v.order.cashback
    ensures Sum(CapturePart(v, o), CASHBACKS) == Sum(RewardPart(v, o), CASHBACKS) == 0
    ensures Sum(RewardPart(v, o), REWARDS) == RewardOf(v)
    ensures Sum(CapturePart(v, o), REWARDS) == Sum(CashbackPart(v, o), REWARDS) == 0
  {
    forall e: Own, pick
      ensures Sum([e], pick) == if Picked(pick, e) then e.amount else 0
      ensures Count([e], pick) == if Picked(pick, e) then 1 else 0
    {
      SumOne(e, pick);
    }
    NoSum();
    hide Sum, Count;
  }

  lemma NoSum()
    ensures forall pick :: Sum([], pick) == 0 && Count([], pick) == 0
  {
  }

  lemma SumOne(e: Own, pick: Pick)
    ensures Sum([e], pick) == (if Picked(pick, e) then e.amount else 0)
    ensures Count([e], pick) == (if Picked(pick, e) then 1 else 0)
  {
    assert [e][..0] == [];
  }

  lemma RefundedSums(v: View, o: OrderId)
    requires v.order.status == Refunded
    ensures Count(Statement(v, o), CAPTURES) == (if HoldCaptured(v) then 1 else 0)
    ensures Sum(Statement(v, o), CAPTURES) == (if HoldCaptured(v) then Minus(v.order.walletSpent) else 0)
    ensures Sum(Statement(v, o), CASHBACKS) == 0
    ensures Sum(Statement(v, o), REWARDS) == 0
  {
    PaidSums(v, o);
    forall pick | pick in {CAPTURES, CASHBACKS, REWARDS}
      ensures Sum(Statement(v, o), pick) == Sum(PaidEntries(v, o), pick) + Sum(CashbackReversalPart(v, o), pick)
              + Sum(RewardReversalPart(v, o), pick)
      ensures Count(Statement(v, o), pick) == Count(PaidEntries(v, o), pick) + Count(CashbackReversalPart(v, o), pick)
              + Count(RewardReversalPart(v, o), pick)
    {
      SumRefunded(v, o, pick);
      RefundsOnlyReturn(v.order, v.refunds, pick);
    }
    ReversalSums(v, o);
  }

  lemma ReversalSums(v: View, o: OrderId)
    ensures Sum(CashbackReversalPart(v, o), CASHBACKS) == Minus(v.order.cashback)
            && Sum(RewardReversalPart(v, o), CASHBACKS) == 0
    ensures Sum(CashbackReversalPart(v, o), REWARDS) == 0 && Sum(RewardReversalPart(v, o), REWARDS) == -RewardOf(v)
    ensures Sum(CashbackReversalPart(v, o), CAPTURES) == 0 && Sum(RewardReversalPart(v, o), CAPTURES) == 0
    ensures Count(CashbackReversalPart(v, o), CAPTURES) == 0 && Count(RewardReversalPart(v, o), CAPTURES) == 0
  {
  }

  lemma StatementSums(v: View, o: OrderId)
    ensures Count(Statement(v, o), CAPTURES) == (if HoldCaptured(v) && v.order.status in {Paid, Refunded} then 1 else 0)
    ensures Sum(Statement(v, o), CAPTURES)
            == (if HoldCaptured(v) && v.order.status in {Paid, Refunded} then Minus(v.order.walletSpent) else 0)
    ensures Sum(Statement(v, o), CASHBACKS) == (if v.order.status == Paid then v.order.cashback else 0)
    ensures Sum(Statement(v, o), REWARDS) == (if v.order.status == Paid then RewardOf(v) else 0)
  {
    if v.order.status == Paid {
      PaidSums(v, o);
    } else if v.order.status == Refunded {
      RefundedSums(v, o);
    }
  }

  /** A captured hold has exactly one capture entry, of minus its amount; no other hold has any. */
  lemma CapturesMatchHold(v: View, o: OrderId)
    requires ViewOk(v, o)
    ensures Count(v.own, CAPTURES) == (if HoldCaptured(v) then 1 else 0)
    ensures Sum(v.own, CAPTURES) == (if HoldCaptured(v) then Minus(v.hold.value.amount) else 0)
  {
    StatementSums(v, o);
  }

  /** Cashback is kept while the order stays paid, and nets to zero once it was refunded, however often. */
  lemma CashbackNets(v: View, o: OrderId)
    requires ViewOk(v, o)
    ensures Sum(v.own, CASHBACKS) == (if v.order.status == Paid then v.order.cashback else 0)
  {
    StatementSums(v, o);
  }

  /** The referrer's net reward: all of it while CREDITED, nothing while PENDING or REVERSED. */
  lemma RewardNets(v: View, o: OrderId)
    requires ViewOk(v, o)
    ensures Sum(v.own, REWARDS)
            == (if v.referral.Some? && v.referral.value.status == Credited then v.referral.value.reward else 0)
  {
    StatementSums(v, o);
  }

  // ----- refunds: the cap and the rounding drift -----

  /** exu is within k half units of the share part / whole of amount (both sides scaled by 2 * whole). */
  predicate WithinDrift(whole: nat, part: nat, k: nat, exu: int, amount: int) {
    Minus(k * whole) <= 2 * whole * exu - 2 * part * amount <= k * whole
  }

  lemma ShareInRange(order: Order, amount: nat)
    requires amount <= OrderValue(order)
    ensures 0 <= ExuShare(order, amount) <= amount
    ensures WithinDrift(OrderValue(order), order.walletSpent, 1, ExuShare(order, amount), amount)
  {
    var whole := OrderValue(order);
    if whole == 0 {
      assert amount == 0;
    } else {
      var share := ExuShare(order, amount);
      Rounding.ShareBounds(amount, order.walletSpent, whole);
      assert 2 * whole * share == 2 * (whole * share);
      assert 2 * order.walletSpent * amount == 2 * (amount * order.walletSpent);
    }
  }

  function ExuTotal(order: Order, refunds: seq<Refund>): int {
    if |refunds| == 0 then 0
    else ExuTotal(order, refunds[..|refunds| - 1]) + ExuShare(order, refunds[|refunds| - 1].amount)
  }

  lemma {:induction false} RefundDrift(order: Order, refunds: seq<Refund>)
    requires AmountSum(refunds) <= OrderValue(order)
    ensures 0 <= ExuTotal(order, refunds) <= AmountSum(refunds)
    ensures WithinDrift(OrderValue(order), order.walletSpent, |refunds|, ExuTotal(order, refunds), AmountSum(refunds))
  {
    if |refunds| > 0 {
      var last := |refunds| - 1;
      var before := refunds[..last];
      RefundDrift(order, before);
      ShareInRange(order, refunds[last].amount);
      DriftStep(OrderValue(order), order.walletSpent, last, ExuTotal(order, before),
                AmountSum(before), ExuShare(order, refunds[last].amount), refunds[last].amount);
    }
  }

  lemma {:induction false} RefundSums(order: Order, refunds: seq<Refund>)
    requires AmountSum(refunds) <= OrderValue(order)
    ensures Sum(RefundEntries(order, refunds), ExuReturns) == ExuTotal(order, refunds)
    ensures ExuTotal(order, refunds) <= Sum(RefundEntries(order, refunds), RETURNS) <= AmountSum(refunds)
  {
    if |refunds| > 0 {
      var last := |refunds| - 1;
      RefundSums(order, refunds[..last]);
      ShareInRange(order, refunds[last].amount);
      RefundEntrySums(order, refunds[last]);
      SumConcat(RefundEntries(order, refunds[..last]), RefundEntry(order, refunds[last]), ExuReturns);
      SumConcat(RefundEntries(order, refunds[..last]), RefundEntry(order, refunds[last]), RETURNS);
    }
  }

  lemma DriftStep(whole: nat, part: nat, k: nat, exu: int, amount: int, exu': int, amount': int)
    requires WithinDrift(whole, part, k, exu, amount) && WithinDrift(whole, part, 1, exu', amount')
    ensures WithinDrift(whole, part, k + 1, exu + exu', amount + amount')
  {
    assert 2 * whole * (exu + exu') == 2 * whole * exu + 2 * whole * exu';
    assert 2 * part * (amount + amount') == 2 * part * amount + 2 * part * amount';
    assert (k + 1) * whole == k * whole + whole;
  }

  lemma NoReturnsBeforeRefund(v: View, o: OrderId)
    ensures Sum(PaidEntries(v, o), ExuReturns) == Sum(PaidEntries(v, o), RETURNS) == 0
    ensures Sum(CashbackReversalPart(v, o), ExuReturns) == Sum(CashbackReversalPart(v, o), RETURNS) == 0
    ensures Sum(RewardReversalPart(v, o), ExuReturns) == Sum(RewardReversalPart(v, o), RETURNS) == 0
  {
    SumPaid(v, o, ExuReturns);
    SumPaid(v, o, RETURNS);
  }

  /** Over all refunds of an order: the total stays within the price fixed at checkout, the wallet never gets more
      than was refunded, and k refunds put the eXu returned off its exact share by at most k/2. */
  lemma RefundsBounded(v: View, o: OrderId)
    requires ViewOk(v, o)
    ensures var whole := OrderValue(v.order);
            var exu := Sum(v.own, ExuReturns);
            && v.order.refunded <= whole
              == Pricing.Max(0, v.order.subtotal - v.order.couponDiscount - v.order.referralDiscount)
            && 0 <= exu <= Sum(v.own, RETURNS) <= v.order.refunded
            && WithinDrift(whole, v.order.walletSpent, |v.refunds|, exu, v.order.refunded)
  {
    NoReturnsBeforeRefund(v, o);
    if v.order.status == Refunded {
      SumRefunded(v, o, ExuReturns);
      SumRefunded(v, o, RETURNS);
      RefundDrift(v.order, v.refunds);
      RefundSums(v.order, v.refunds);
    }
  }

  /** One refund of everything returns exactly the eXu that was spent. */
  lemma {:induction false} FullRefundReturnsWalletPart(v: View, o: OrderId)
    requires ViewOk(v, o) && |v.refunds| == 1 && v.order.refunded == OrderValue(v.order)
    ensures Sum(v.own, ExuReturns) == v.order.walletSpent
  {
    var r := v.refunds[0];
    assert v.refunds[..0] == [];
    assert AmountSum(v.refunds) == r.amount;
    assert RefundEntries(v.order, v.refunds) == RefundEntry(v.order, r);
    WholeExuShare(v.order);
    NoReturnsBeforeRefund(v, o);
    SumRefunded(v, o, ExuReturns);
    RefundEntrySums(v.order, r);
    hide Statement, PaidEntries, CashbackReversalPart, RewardReversalPart, RefundEntries, RefundEntry, Sum, Count,
         AmountSum,
         ExuShare, CashShare, OrderValue;
  }

  lemma WholeExuShare(order: Order)
    ensures ExuShare(order, OrderValue(order)) == order.walletSpent
  {
    if 0 < OrderValue(order) {
      Rounding.WholeShare(order.walletSpent, OrderValue(order));
    }
  }

  /** Refunds of one unit each. */
  predicate UnitRefunds(refunds: seq<Refund>) {
    forall i :: 0 <= i < |refunds| ==> refunds[i].amount == 1
  }

  /** The drift bound is reached, for every number of refunds: when an order is paid half in eXu, every refund of one
      unit rounds up to one unit of eXu, half a unit more than its share. Refunded unit by unit such an order returns
      twice the eXu that was spent. */
  lemma {:induction false} DriftIsReached(order: Order, refunds: seq<Refund>)
    requires 0 < order.walletSpent == order.payable && UnitRefunds(refunds)
    ensures ExuTotal(order, refunds) == AmountSum(refunds) == |refunds|
    ensures 2 * OrderValue(order) * ExuTotal(order, refunds) - 2 * order.walletSpent * AmountSum(refunds)
         == |refunds| * OrderValue(order)
  {
    if |refunds| > 0 {
      DriftIsReached(order, refunds[..|refunds| - 1]);
      var k := order.walletSpent;
      assert OrderValue(order) == 2 * k && 1 * k == k;
      Rounding.RoundDivUnique(k, 2 * k, 1);
    }
    HalfUnits(order.walletSpent, |refunds|);
  }

  lemma HalfUnits(k: nat, m: nat)
    ensures 2 * (k + k) * m - 2 * k * m == m * (k + k)
  {
  }

  /** What rounding adds to the eXu share of one refund, in units of 1 / (2 * whole). */
  function Gain(order: Order, amount: nat): int {
    var whole := OrderValue(order);
    if whole == 0 then 0 else whole - (2 * (amount * order.walletSpent) + whole) % (2 * whole)
  }

  function TotalGain(order: Order, refunds: seq<Refund>): int {
    if |refunds| == 0 then 0
    else TotalGain(order, refunds[..|refunds| - 1]) + Gain(order, refunds[|refunds| - 1].amount)
  }

  lemma GainIs(order: Order, amount: nat)
    ensures 2 * OrderValue(order) * ExuShare(order, amount) == 2 * order.walletSpent * amount + Gain(order, amount)
  {
    var whole := OrderValue(order);
    if 0 < whole {
      var n := 2 * (amount * order.walletSpent) + whole;
      assert ExuShare(order, amount) == n / (2 * whole);
      assert 2 * whole * (n / (2 * whole)) == n - n % (2 * whole);
      assert 2 * order.walletSpent * amount == 2 * (amount * order.walletSpent);
    }
  }

  lemma {:induction false} TotalGainIs(order: Order, refunds: seq<Refund>)
    ensures 2 * OrderValue(order) * ExuTotal(order, refunds) == 2 * order.walletSpent * AmountSum(refunds)
            + TotalGain(order, refunds)
  {
    if |refunds| > 0 {
      var before := refunds[..|refunds| - 1];
      var amount := refunds[|refunds| - 1].amount;
      TotalGainIs(order, before);
      GainIs(order, amount);
      hide OrderValue, ExuShare, Gain;
      var whole := OrderValue(order);
      var part := order.walletSpent;
      Distribute(2 * whole, ExuTotal(order, before), ExuShare(order, amount));
      Distribute(2 * part, AmountSum(before), amount);
    }
  }

  lemma Distribute(c: int, a: int, b: int)
    ensures c * (a + b) == c * a + c * b
  {
  }

  /** More eXu comes back than was spent if and only if what rounding added, refund by refund, outweighs the eXu's share
      of what is not refunded yet. */
  lemma ExuExceedsIff(order: Order, refunds: seq<Refund>)
    ensures order.walletSpent < ExuTotal(order, refunds)
       <==> 2 * order.walletSpent * (OrderValue(order) - AmountSum(refunds)) < TotalGain(order, refunds)
  {
    TotalGainIs(order, refunds);
    var whole, part, exu := OrderValue(order), order.walletSpent, ExuTotal(order, refunds);
    if whole == 0 {
      NothingShared(order, refunds);
    }
    hide TotalGain, ExuTotal, AmountSum, OrderValue;
    Distribute(2 * part, whole, 0 - AmountSum(refunds));
    Compare(whole, part, exu);
  }

  lemma Compare(whole: nat, part: nat, exu: int)
    ensures 0 < whole ==> (part < exu <==> 2 * part * whole < 2 * whole * exu)
  {
    assert 2 * part * whole == 2 * whole * part;
    if part < exu {
      Rounding.MulMono(2 * whole, part + 1, exu);
    } else {
      Rounding.MulMono(2 * whole, exu, part);
    }
  }

  lemma {:induction false} NothingShared(order: Order, refunds: seq<Refund>)
    requires OrderValue(order) == 0
    ensures ExuTotal(order, refunds) == TotalGain(order, refunds) == 0
  {
    if |refunds| > 0 {
      NothingShared(order, refunds[..|refunds| - 1]);
    }
  }

  /** Small or few enough refunds never return more eXu than was spent: it is enough that the eXu's share of what is
      not refunded yet makes up for half a unit per refund. */
  lemma ExuWithinSpent(order: Order, refunds: seq<Refund>)
    requires AmountSum(refunds) <= OrderValue(order)
    requires DriftCovered(OrderValue(order), order.walletSpent, |refunds|, AmountSum(refunds))
    ensures ExuTotal(order, refunds) <= order.walletSpent
  {
    RefundDrift(order, refunds);
    WithinWhole(OrderValue(order), order.walletSpent, |refunds|, ExuTotal(order, refunds), AmountSum(refunds));
  }

  predicate DriftCovered(whole: nat, part: nat, k: nat, amount: int) {
    k * whole <= 2 * part * (whole - amount)
  }

  lemma WithinWhole(whole: nat, part: nat, k: nat, exu: int, amount: int)
    requires part <= whole && 0 <= exu <= amount <= whole
    requires WithinDrift(whole, part, k, exu, amount) && DriftCovered(whole, part, k, amount)
    ensures exu <= part
  {
    assert 2 * part * (whole - amount) == 2 * part * whole - 2 * part * amount;
    assert 2 * whole * exu <= 2 * whole * part;
    if part < exu {
      Rounding.MulMono(2 * whole, part + 1, exu);
    }
  }

  // ----- what was taken and what came back -----

  /** A refund so small that its eXu share rounds to nothing. */
  predicate Shareless(order: Order, r: Refund) {
    OrderValue(order) == 0 || 2 * (r.amount * order.walletSpent) < OrderValue(order)
  }

  predicate AllShareless(order: Order, refunds: seq<Refund>) {
    forall i :: 0 <= i < |refunds| ==> Shareless(order, refunds[i])
  }

  lemma ShareIsZeroIff(order: Order, r: Refund)
    ensures 0 <= ExuShare(order, r.amount)
    ensures ExuShare(order, r.amount) == 0 <==> Shareless(order, r)
  {
    var whole, n := OrderValue(order), r.amount * order.walletSpent;
    if 0 < whole {
      var share := Rounding.RoundDiv(n, whole);
      if share < 0 {
        Rounding.MulMono(whole, share, -1);
      }
      if 2 * n < whole {
        Rounding.RoundDivUnique(n, whole, 0);
      }
    }
  }

  lemma {:induction false} TotalIsZeroIff(order: Order, refunds: seq<Refund>)
    ensures 0 <= ExuTotal(order, refunds)
    ensures ExuTotal(order, refunds) == 0 <==> AllShareless(order, refunds)
  {
    if |refunds| > 0 {
      var last := |refunds| - 1;
      TotalIsZeroIff(order, refunds[..last]);
      ShareIsZeroIff(order, refunds[last]);
      hide ExuShare, Shareless;
    }
  }

  /** The order's refunds in its entries and in its rows. */
  lemma ReturnsAreTotal(v: View, o: OrderId)
    requires ViewOk(v, o)
    ensures Sum(v.own, ExuReturns) == ExuTotal(v.order, v.refunds) && v.order.refunded == AmountSum(v.refunds)
  {
    NoReturnsBeforeRefund(v, o);
    if v.order.status == Refunded {
      SumRefunded(v, o, ExuReturns);
      RefundSums(v.order, v.refunds);
    }
    hide PaidEntries, RefundEntries, CashbackReversalPart, RewardReversalPart;
  }

  /** What an order's entries took from the buyer as eXu spent. */
  function Taken(v: View): int {
    Minus(Sum(v.own, CAPTURES))
  }

  /** When refunds return no more than was taken: if the hold was captured, rounding must not outweigh the share of
      what is not refunded yet; if it was not, nothing was taken and every refund's share must round to nothing. */
  predicate ReturnsFit(v: View) {
    if HoldCaptured(v)
    then TotalGain(v.order, v.refunds) <= 2 * v.order.walletSpent * (OrderValue(v.order) - v.order.refunded)
    else AllShareless(v.order, v.refunds)
  }

  /** The eXu that refunds return stays within the eXu the capture took if and only if ReturnsFit. */
  lemma ReturnedWithinTakenIff(v: View, o: OrderId)
    requires ViewOk(v, o)
    ensures Taken(v) == if HoldCaptured(v) then v.order.walletSpent else 0
    ensures Sum(v.own, ExuReturns) <= Taken(v) <==> ReturnsFit(v)
  {
    ReturnsAreTotal(v, o);
    CapturesMatchHold(v, o);
    ExuExceedsIff(v.order, v.refunds);
    TotalIsZeroIff(v.order, v.refunds);
    hide Sum, Statement, ExuTotal, TotalGain, AllShareless, RowsAgree, AmountSum, OrderValue;
  }

  /** One refund of everything stays within what was taken if and only if the hold was captured or no eXu was to be
      spent: the share of a hold that lapsed uncaptured is paid back without having been taken. */
  lemma FullRefundWithinTakenIff(v: View, o: OrderId)
    requires ViewOk(v, o) && |v.refunds| == 1 && v.order.refunded == OrderValue(v.order)
    ensures Sum(v.own, ExuReturns) <= Taken(v) <==> v.order.walletSpent == 0 || HoldCaptured(v)
  {
    FullRefundReturnsWalletPart(v, o);
    ReturnedWithinTakenIff(v, o);
    hide Sum, Statement, ReturnsFit, RowsAgree, AmountSum, OrderValue;
  }

  // ----- over all runs -----

  lemma {:induction false} RunView(start: Millis, steps: seq<Step>, o: OrderId)
    requires o < |Run(EmptyDb(start), steps).orders|
    ensures ViewOk(ViewAt(Run(EmptyDb(start), steps), o), o)
  {
    RunInvariant(start, steps);
  }

  /** After any run the ledger entries of every order are the ones its rows call for, and nothing else. */
  lemma {:induction false} RunStatement(start: Millis, steps: seq<Step>, o: OrderId)
    requires o < |Run(EmptyDb(start), steps).orders|
    ensures var v := ViewAt(Run(EmptyDb(start), steps), o);
            && v.own == Statement(v, o) && RowsAgree(v)
            && (v.order.status in {Unpaid, Failed} ==> v.own == [])
            && Count(v.own, CAPTURES) == (if HoldCaptured(v) then 1 else 0)
            && Sum(v.own, CAPTURES) == (if HoldCaptured(v) then Minus(v.hold.value.amount) else 0)
            && Sum(v.own, CASHBACKS) == (if v.order.status == Paid then v.order.cashback else 0)
  {
    RunView(start, steps, o);
    var v := ViewAt(Run(EmptyDb(start), steps), o);
    CapturesMatchHold(v, o);
    CashbackNets(v, o);
  }

  lemma {:induction false} RunReferrals(start: Millis, steps: seq<Step>)
    ensures var db := Run(EmptyDb(start), steps);
            && OneLiveReferral(db.referrals)
            && forall o :: o in db.referrals ==>
                 && o < |db.orders| && db.referrals[o].referee == db.orders[o].user
                 && db.referrals[o].referrer != db.referrals[o].referee
                 && Sum(OwnEntries(db.ledger, o), REWARDS)
                   == (if db.referrals[o].status == Credited then db.referrals[o].reward else 0)
  {
    RunInvariant(start, steps);
    var db := Run(EmptyDb(start), steps);
    forall o | o in db.referrals
      ensures && o < |db.orders| && db.referrals[o].referee == db.orders[o].user
              && db.referrals[o].referrer != db.referrals[o].referee
              && Sum(OwnEntries(db.ledger, o), REWARDS)
                == (if db.referrals[o].status == Credited then db.referrals[o].reward else 0)
    {
      RewardNets(ViewAt(db, o), o);
    }
  }

  /** All that refunds of one order may do. */
  predicate RefundsInBounds(v: View) {
    var whole := OrderValue(v.order);
    var exu := Sum(v.own, ExuReturns);
    && v.order.refunded == AmountSum(v.refunds) <= whole
    && whole == Pricing.Max(0, v.order.subtotal - v.order.couponDiscount - v.order.referralDiscount)
    && 0 <= exu <= Sum(v.own, RETURNS) <= v.order.refunded
    && WithinDrift(whole, v.order.walletSpent, |v.refunds|, exu, v.order.refunded)
    && (|v.refunds| == 1 && v.order.refunded == whole ==> exu == v.order.walletSpent)
    && (DriftCovered(whole, v.order.walletSpent, |v.refunds|, v.order.refunded) ==> exu <= v.order.walletSpent)
    && (exu <= Taken(v) <==> ReturnsFit(v))
  }

  lemma RefundsAreInBounds(v: View, o: OrderId)
    requires ViewOk(v, o)
    ensures RefundsInBounds(v)
  {
    RefundsBounded(v, o);
    ReturnedWithinTakenIff(v, o);
    var exu := Sum(v.own, ExuReturns);
    if |v.refunds| == 1 && v.order.refunded == OrderValue(v.order) {
      FullRefundReturnsWalletPart(v, o);
    }
    hide Sum, Statement, RowsAgree, ReferralPriced, WithinDrift, DriftCovered, AmountSum, ReturnsFit, Taken, OrderValue;
    if DriftCovered(OrderValue(v.order), v.order.walletSpent, |v.refunds|, v.order.refunded) {
      WithinWhole(OrderValue(v.order), v.order.walletSpent, |v.refunds|, exu, v.order.refunded);
    }
  }

  /** After any run, of every order. */
  lemma {:induction false} RunRefunds(start: Millis, steps: seq<Step>, o: OrderId)
    requires o < |Run(EmptyDb(start), steps).orders|
    ensures RefundsInBounds(ViewAt(Run(EmptyDb(start), steps), o))
  {
    RunView(start, steps, o);
    hide Run, ViewAt, RefundsInBounds, ViewOk;
    RefundsAreInBounds(ViewAt(Run(EmptyDb(start), steps), o), o);
  }

  lemma {:induction false} RunFullRefund(start: Millis, steps: seq<Step>, o: OrderId)
    requires o < |Run(EmptyDb(start), steps).orders|
    requires var v := ViewAt(Run(EmptyDb(start), steps), o);
             |v.refunds| == 1 && v.order.refunded == OrderValue(v.order)
    ensures var v := ViewAt(Run(EmptyDb(start), steps), o);
            Sum(v.own, ExuReturns) <= Taken(v) <==> v.order.walletSpent == 0 || HoldCaptured(v)
  {
    RunView(start, steps, o);
    FullRefundWithinTakenIff(ViewAt(Run(EmptyDb(start), steps), o), o);
  }
}
