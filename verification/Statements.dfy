/** What an order's ledger entries must be, read off its rows alone, and the proof that payment,
    failure, hold expiry and refunds all keep it so. */
module Statements {
  import opened Domain
  import opened Ledger
  import opened Wallets
  import opened Orders
  import opened OrderView
  import Pricing
  import Rounding

  function CapturePart(v: View, o: OrderId): seq<Own> {
    if v.hold.Some? && v.hold.value.status == Captured
    then [Own(v.order.user, RedemptionCapture, Minus(v.order.walletSpent), Some(CaptureKey(o)))] else []
  }

  function CashbackPart(v: View, o: OrderId): seq<Own> {
    if 0 < v.order.cashback
    then [Own(v.order.user, OrderCashback, v.order.cashback, Some(CashbackKey(o)))] else []
  }

  function RewardPart(v: View, o: OrderId): seq<Own> {
    if v.referral.Some?
    then [Own(v.referral.value.referrer, ReferralReward, v.referral.value.reward, Some(RewardKey(o)))] else []
  }

  function PaidEntries(v: View, o: OrderId): seq<Own> {
    CapturePart(v, o) + CashbackPart(v, o) + RewardPart(v, o)
  }

  function CashbackReversalPart(v: View, o: OrderId): seq<Own> {
    if 0 < v.order.cashback
    then [Own(v.order.user, OrderCashbackReversal, Minus(v.order.cashback), Some(CashbackReversalKey(o)))] else []
  }

  function RewardReversalPart(v: View, o: OrderId): seq<Own> {
    if v.referral.Some?
    then [Own(v.referral.value.referrer, ReferralRewardReversal, Minus(v.referral.value.reward),
              Some(RewardReversalKey(o)))] else []
  }

  function ReversalEntries(v: View, o: OrderId): seq<Own> {
    CashbackReversalPart(v, o) + RewardReversalPart(v, o)
  }

  function CashShare(order: Order, r: Refund): int {
    if r.mode == ToWallet then r.amount - ExuShare(order, r.amount) else 0
  }

  function RefundEntry(order: Order, r: Refund): seq<Own> {
    var exu := ExuShare(order, r.amount);
    var cash := CashShare(order, r);
    (if 0 < exu then [Own(order.user, RefundToWallet, exu, Some(RefundExuKey(r.id)))] else [])
    + (if 0 < cash then [Own(order.user, RefundToWallet, cash, Some(RefundCashKey(r.id)))] else [])
  }

  function RefundEntries(order: Order, refunds: seq<Refund>): seq<Own> {
    if |refunds| == 0 then []
    else
      var last := |refunds| - 1;
      RefundEntries(order, refunds[..last]) + RefundEntry(order, refunds[last])
  }

  function Statement(v: View, o: OrderId): seq<Own> {
    match v.order.status
    case Unpaid => []
    case Failed => []
    case Paid => PaidEntries(v, o)
    case Refunded => PaidEntries(v, o) + ReversalEntries(v, o) + RefundEntries(v.order, v.refunds)
  }

  function AmountSum(refunds: seq<Refund>): nat {
    if |refunds| == 0 then 0
    else AmountSum(refunds[..|refunds| - 1]) + refunds[|refunds| - 1].amount
  }

  predicate ReferralIs(v: View, status: ReferralStatus, rewarded: bool, reversed: bool) {
    v.referral.Some? ==>
      && v.referral.value.status == status
      && (v.referral.value.rewardTx.Some? <==> rewarded)
      && (v.referral.value.reversalTx.Some? <==> reversed)
  }

  /** Which hold and referral states go with which order status. */
  predicate RowsAgree(v: View) {
    var order := v.order;
    match order.status
    case Unpaid =>
      && (v.hold.Some? ==> v.hold.value.status in {Held, Lapsed})
      && ReferralIs(v, Pending, rewarded := false, reversed := false)
      && order.cashbackTx.None? && !order.cashbackReversed && v.refunds == []
    case Failed =>
      && (v.hold.Some? ==> v.hold.value.status in {Released, Lapsed})
      && ReferralIs(v, Reversed, rewarded := false, reversed := false)
      && order.cashbackTx.None? && !order.cashbackReversed && v.refunds == []
    case Paid =>
      && (v.hold.Some? ==> v.hold.value.status in {Captured, Lapsed})
      && ReferralIs(v, Credited, rewarded := true, reversed := false)
      && (order.cashbackTx.Some? <==> 0 < order.cashback) && !order.cashbackReversed && v.refunds == []
    case Refunded =>
      && (v.hold.Some? ==> v.hold.value.status in {Captured, Lapsed})
      && ReferralIs(v, Reversed, rewarded := true, reversed := true)
      && (order.cashbackTx.Some? <==> 0 < order.cashback) && (order.cashbackReversed <==> 0 < order.cashback)
      && v.refunds != []
  }

  /** A referral discount and a referral come together, at the fixed amounts. */
  predicate ReferralPriced(v: View) {
    && (v.referral.Some? <==> 0 < v.order.referralDiscount)
    && (v.referral.Some? ==>
          v.order.referralDiscount == REFERRAL_DISCOUNT && v.referral.value.reward == REFERRAL_REWARD)
  }

  predicate ViewOk(v: View, o: OrderId) {
    && v.own == Statement(v, o)
    && RowsAgree(v)
    && (v.hold.Some? ==> v.hold.value.user == v.order.user && v.hold.value.amount == v.order.walletSpent)
    && (v.referral.Some? ==> v.referral.value.referee == v.order.user && v.referral.value.referrer != v.order.user)
    && ReferralPriced(v)
    && OrderValue(v.order) == Pricing.Max(0, v.order.subtotal - v.order.couponDiscount - v.order.referralDiscount)
    && v.order.refunded == AmountSum(v.refunds) <= OrderValue(v.order)
  }

  // ----- payment -----

  function VComplete(v: View, o: OrderId): View {
    VRewardMark(VReward(VCashbackMark(VCashback(VCapture(v, o), o), o), o), o)
  }

  function VFinalize(v: View, o: OrderId): View {
    VComplete(v.(order := v.order.(status := Paid)), o)
  }

  lemma VCompleteIsAllStages(v: View, o: OrderId)
    ensures VComplete(v, o) == VBenefitsUpTo(v, o, BENEFIT_STAGES)
  {
    var v1 := VBenefitsUpTo(v, o, 1);
    assert v1 == VCapture(VBenefitsUpTo(v, o, 0), o);
    var v2 := VBenefitsUpTo(v, o, 2);
    assert v2 == VCashback(v1, o);
    var v3 := VBenefitsUpTo(v, o, 3);
    assert v3 == VCashbackMark(v2, o);
    var v4 := VBenefitsUpTo(v, o, 4);
    assert v4 == VReward(v3, o);
  }

  lemma VPostNew(v: View, e: Own)
    requires e.key.Some? && !OwnHas(v.own, e.key.value)
    ensures VPost(v, e) == v.(own := v.own + [e])
    ensures OwnHas(VPost(v, e).own, e.key.value)
  {
    assert VPost(v, e).own[|v.own|] == e;
  }

  lemma VCaptureAdds(v: View, o: OrderId)
    requires v.own == [] && (v.hold.Some? ==> v.hold.value.status in {Held, Lapsed})
    requires v.hold.Some? ==> v.hold.value.user == v.order.user && v.hold.value.amount == v.order.walletSpent
    ensures var w := VCapture(v, o);
            w == v.(hold := w.hold, own := CapturePart(w, o))
            && w.hold == if v.hold.Some? && v.hold.value.status == Held then Some(v.hold.value.(status := Captured))
              else v.hold
  {
  }

  lemma VCashbackAdds(v: View, o: OrderId)
    requires v.order.cashbackTx.None? && !OwnHas(v.own, CashbackKey(o))
    ensures VCashbackMark(VCashback(v, o), o)
         == v.(own := v.own + CashbackPart(v, o),
               order := v.order.(cashbackTx := if 0 < v.order.cashback then Some(0) else None))
  {
    if CashbackDue(v.order) {
      VPostNew(v, Own(v.order.user, OrderCashback, v.order.cashback, Some(CashbackKey(o))));
    }
  }

  lemma VRewardAdds(v: View, o: OrderId)
    requires v.referral.Some? ==> VRewardDue(v)
    requires !OwnHas(v.own, RewardKey(o))
    ensures VRewardMark(VReward(v, o), o)
         == v.(own := v.own + RewardPart(v, o),
               referral := if v.referral.Some? then Some(v.referral.value.(rewardTx := Some(0), status := Credited))
                 else None)
  {
    if v.referral.Some? {
      VPostNew(v, Own(v.referral.value.referrer, ReferralReward, v.referral.value.reward, Some(RewardKey(o))));
    }
  }

  lemma FinalizeStatement(v: View, o: OrderId)
    requires ViewOk(v, o) && v.order.status == Unpaid
    ensures ViewOk(VFinalize(v, o), o) && VFinalize(v, o).order.status == Paid
    ensures VFinalize(v, o).hold ==
            if v.hold.Some? && v.hold.value.status == Held then Some(v.hold.value.(status := Captured)) else v.hold
  {
    hide VCapture, VCashback, VCashbackMark, VReward, VRewardMark;
    var v0 := v.(order := v.order.(status := Paid));
    VCaptureAdds(v0, o);
    var v1 := VCapture(v0, o);
    VCashbackAdds(v1, o);
    VRewardAdds(VCashbackMark(VCashback(v1, o), o), o);
  }

  // ----- failure -----

  function VRollback(v: View): View {
    var v1 := if v.hold.Some? && v.hold.value.status == Held then v.(hold := Some(v.hold.value.(status := Released)))
      else v;
    if v1.referral.Some? && v1.referral.value.status == Pending
    then v1.(referral := Some(v1.referral.value.(status := Reversed))) else v1
  }

  function VFail(v: View): View {
    VRollback(v.(order := v.order.(status := Failed)))
  }

  lemma FailStatement(v: View, o: OrderId)
    requires ViewOk(v, o) && v.order.status == Unpaid
    ensures ViewOk(VFail(v), o)
  {
  }

  function VExpireHold(v: View, now: Millis): View {
    if v.hold.Some? then v.(hold := Some(ExpireHold(v.hold.value, now))) else v
  }

  lemma ExpireHoldStatement(v: View, o: OrderId, now: Millis)
    requires ViewOk(v, o)
    ensures ViewOk(VExpireHold(v, now), o)
  {
  }

  // ----- refunds -----

  function VReverseCashback(v: View, o: OrderId): View {
    if 0 < v.order.cashback && !v.order.cashbackReversed then
      VPost(v, Own(v.order.user, OrderCashbackReversal, Minus(v.order.cashback), Some(CashbackReversalKey(o))))
        .(order := v.order.(cashbackReversed := true))
    else v
  }

  function VReverseReferral(v: View, o: OrderId): View {
    if v.referral.None? then v
    else
      var referral := v.referral.value;
      if referral.status == Credited && referral.reversalTx.None? then
        VPost(v, Own(referral.referrer, ReferralRewardReversal, Minus(referral.reward), Some(RewardReversalKey(o))))
          .(referral := Some(referral.(reversalTx := Some(0), status := Reversed)))
      else if referral.status == Pending then v.(referral := Some(referral.(status := Reversed)))
      else v
  }

  function VReturn(v: View, user: UserId, amount: int, key: Key): View {
    if 0 < amount then VPost(v, Own(user, RefundToWallet, amount, Some(key))) else v
  }

  function VRefund(v: View, o: OrderId, r: Refund): View {
    var v1 := v.(refunds := v.refunds + [r]);
    var v2 := VReverseCashback(v1, o);
    var v3 := VReverseReferral(v2, o);
    var v4 := VReturn(v3, v.order.user, ExuShare(v.order, r.amount), RefundExuKey(r.id));
    var v5 := VReturn(v4, v.order.user, CashShare(v.order, r), RefundCashKey(r.id));
    v5.(order := v5.order.(status := Refunded, refunded := v.order.refunded + r.amount))
  }

  lemma {:induction false} RefundKeysAreOwn(order: Order, refunds: seq<Refund>, i: nat)
    requires i < |RefundEntries(order, refunds)|
    ensures var key := RefundEntries(order, refunds)[i].key;
            key.Some? && RefundKey(key.value) && exists j :: 0 <= j < |refunds| && refunds[j].id == key.value.refund
  {
    var last := |refunds| - 1;
    var before := RefundEntries(order, refunds[..last]);
    if i < |before| {
      RefundKeysAreOwn(order, refunds[..last], i);
    } else {
      var entry := RefundEntry(order, refunds[last]);
      assert RefundEntries(order, refunds)[i] == entry[i - |before|];
    }
  }

  lemma {:induction false} RefundEntriesOfRow(order: Order, order': Order, refunds: seq<Refund>)
    requires order'.user == order.user && order'.payable == order.payable && order'.walletSpent == order.walletSpent
    ensures RefundEntries(order', refunds) == RefundEntries(order, refunds)
  {
    if |refunds| > 0 {
      RefundEntriesOfRow(order, order', refunds[..|refunds| - 1]);
    }
  }

  lemma VReverseCashbackAdds(v: View, o: OrderId)
    requires !v.order.cashbackReversed && !OwnHas(v.own, CashbackReversalKey(o))
    ensures VReverseCashback(v, o) == v.(own := v.own + CashbackReversalPart(v, o),
                                         order := v.order.(cashbackReversed := 0 < v.order.cashback))
  {
  }

  lemma VReverseReferralAdds(v: View, o: OrderId)
    requires v.referral.Some? ==> v.referral.value.status == Credited && v.referral.value.reversalTx.None?
    requires !OwnHas(v.own, RewardReversalKey(o))
    ensures VReverseReferral(v, o)
         == v.(own := v.own + RewardReversalPart(v, o),
               referral := if v.referral.Some? then Some(v.referral.value.(reversalTx := Some(0), status := Reversed))
                 else None)
  {
  }

  function VReverse(v: View, o: OrderId): View {
    VReverseReferral(VReverseCashback(v, o), o)
  }

  /** The reversals happen exactly once: with the first refund. */
  lemma ReversalStatement(v: View, o: OrderId)
    requires ViewOk(v, o) && v.order.status in {Paid, Refunded}
    ensures var w := VReverse(v, o);
            && w.own == PaidEntries(v, o) + ReversalEntries(v, o) + RefundEntries(v.order, v.refunds)
            && w.hold == v.hold && w.refunds == v.refunds
            && w.order == v.order.(cashbackReversed := 0 < v.order.cashback)
            && (w.referral.Some? <==> v.referral.Some?)
            && (w.referral.Some? ==>
                  w.referral.value == v.referral.value.(status := Reversed, reversalTx := w.referral.value.reversalTx)
                  && w.referral.value.reversalTx.Some?)
  {
    if v.order.status == Paid {
      assert RefundEntries(v.order, v.refunds) == [];
      NoReversalYet(v, o);
      hide OwnHas, PaidEntries, VPost;
      VReverseCashbackAdds(v, o);
      VReverseReferralAdds(VReverseCashback(v, o), o);
    }
  }

  lemma NoReversalYet(v: View, o: OrderId)
    requires v.own == PaidEntries(v, o)
    ensures !OwnHas(v.own, CashbackReversalKey(o)) && !OwnHas(v.own + CashbackReversalPart(v, o), RewardReversalKey(o))
  {
  }

  lemma VReturnAdds(v: View, user: UserId, amount: int, key: Key)
    requires !OwnHas(v.own, key)
    ensures VReturn(v, user, amount, key)
         == v.(own := v.own + if 0 < amount then [Own(user, RefundToWallet, amount, Some(key))] else [])
  {
  }

  lemma VReturnsAdd(v: View, order: Order, r: Refund)
    requires forall i :: 0 <= i < |v.own| ==>
               v.own[i].key != Some(RefundExuKey(r.id)) && v.own[i].key != Some(RefundCashKey(r.id))
    ensures VReturn(VReturn(v, order.user, ExuShare(order, r.amount), RefundExuKey(r.id)),
                    order.user, CashShare(order, r), RefundCashKey(r.id))
         == v.(own := v.own + RefundEntry(order, r))
  {
    VReturnAdds(v, order.user, ExuShare(order, r.amount), RefundExuKey(r.id));
    var w := VReturn(v, order.user, ExuShare(order, r.amount), RefundExuKey(r.id));
    VReturnAdds(w, order.user, CashShare(order, r), RefundCashKey(r.id));
  }

  lemma ReversedKeys(v: View, o: OrderId, id: nat)
    requires forall i :: 0 <= i < |v.refunds| ==> v.refunds[i].id < id
    ensures var own := PaidEntries(v, o) + ReversalEntries(v, o) + RefundEntries(v.order, v.refunds);
            forall i :: 0 <= i < |own| ==> own[i].key != Some(RefundExuKey(id)) && own[i].key != Some(RefundCashKey(id))
  {
    PaidKeys(v, o, id);
    LaterKeys(v.order, v.refunds, id);
    hide PaidEntries, ReversalEntries, RefundEntries;
  }

  lemma PaidKeys(v: View, o: OrderId, id: nat)
    ensures var own := PaidEntries(v, o) + ReversalEntries(v, o);
            forall i :: 0 <= i < |own| ==>
              own[i].key != Some(RefundExuKey(id)) && own[i].key != Some(RefundCashKey(id))
  {
  }

  lemma LaterKeys(order: Order, refunds: seq<Refund>, id: nat)
    requires forall i :: 0 <= i < |refunds| ==> refunds[i].id < id
    ensures var own := RefundEntries(order, refunds);
            forall i :: 0 <= i < |own| ==>
              own[i].key != Some(RefundExuKey(id)) && own[i].key != Some(RefundCashKey(id))
  {
    forall i | 0 <= i < |RefundEntries(order, refunds)|
      ensures var key := RefundEntries(order, refunds)[i].key;
              key != Some(RefundExuKey(id)) && key != Some(RefundCashKey(id))
    {
      RefundKeysAreOwn(order, refunds, i);
    }
    hide RefundEntries;
  }

  lemma VReverseIgnoresRefunds(v: View, o: OrderId, refunds: seq<Refund>)
    ensures VReverse(v.(refunds := refunds), o) == VReverse(v, o).(refunds := refunds)
  {
  }

  lemma VRefundAdds(v: View, o: OrderId, r: Refund)
    requires ViewOk(v, o) && v.order.status in {Paid, Refunded}
    requires forall i :: 0 <= i < |v.refunds| ==> v.refunds[i].id < r.id
    ensures var reversed := VReverse(v, o);
            VRefund(v, o, r) == v.(refunds := v.refunds + [r], referral := reversed.referral,
                                   own := reversed.own + RefundEntry(v.order, r),
                                   order := v.order.(cashbackReversed := 0 < v.order.cashback, status := Refunded,
                                                     refunded := v.order.refunded + r.amount))
  {
    ReversalStatement(v, o);
    ReversedKeys(v, o, r.id);
    VReverseIgnoresRefunds(v, o, v.refunds + [r]);
    VReturnsAdd(VReverse(v, o).(refunds := v.refunds + [r]), v.order, r);
  }

  lemma RefundStatement(v: View, o: OrderId, r: Refund)
    requires ViewOk(v, o) && v.order.status in {Paid, Refunded}
    requires v.order.refunded + r.amount <= OrderValue(v.order)
    requires forall i :: 0 <= i < |v.refunds| ==> v.refunds[i].id < r.id
    ensures ViewOk(VRefund(v, o, r), o)
  {
    ReversalStatement(v, o);
    VRefundAdds(v, o, r);
    hide ViewOk, VRefund, VReverse, PaidEntries, ReversalEntries, RefundEntries, RefundEntry, OrderValue;
    RefundedOk(v, VRefund(v, o, r), o, r);
  }

  /** A view that differs from a paid or refunded one by one refund and the reversals. */
  lemma RefundedOk(v: View, w: View, o: OrderId, r: Refund)
    requires ViewOk(v, o) && v.order.status in {Paid, Refunded} && v.order.refunded + r.amount <= OrderValue(v.order)
    requires w.order
             == v.order.(cashbackReversed := 0 < v.order.cashback, status := Refunded,
                         refunded := v.order.refunded + r.amount)
    requires w.hold == v.hold && w.refunds == v.refunds + [r] && (w.referral.Some? <==> v.referral.Some?)
    requires w.referral.Some? ==>
               w.referral.value == v.referral.value.(status := Reversed, reversalTx := w.referral.value.reversalTx)
               && w.referral.value.reversalTx.Some?
    requires w.own == PaidEntries(v, o) + ReversalEntries(v, o) + RefundEntries(v.order, v.refunds)
             + RefundEntry(v.order, r)
    ensures ViewOk(w, o)
  {
    StatementOfRefunded(v, w, o, r);
    AmountSumNext(v.refunds, r);
    assert OrderValue(w.order) == OrderValue(v.order);
    hide Statement, PaidEntries, ReversalEntries, RefundEntries, RefundEntry, AmountSum, OrderValue, Pricing.Max;
  }

  lemma AmountSumNext(refunds: seq<Refund>, r: Refund)
    ensures AmountSum(refunds + [r]) == AmountSum(refunds) + r.amount
  {
    assert (refunds + [r])[..|refunds|] == refunds;
  }

  lemma StatementOfRefunded(v: View, w: View, o: OrderId, r: Refund)
    requires w.order
             == v.order.(cashbackReversed := w.order.cashbackReversed, status := Refunded, refunded := w.order.refunded)
    requires w.hold == v.hold && w.refunds == v.refunds + [r]
    requires w.referral.Some? <==> v.referral.Some?
    requires w.referral.Some? ==>
               && w.referral.value.referrer == v.referral.value.referrer
               && w.referral.value.reward == v.referral.value.reward
    ensures Statement(w, o) == PaidEntries(v, o) + ReversalEntries(v, o) + RefundEntries(v.order, v.refunds)
            + RefundEntry(v.order, r)
  {
    SamePaidParts(v, w, o);
    NextRefundEntries(w.order, v.refunds, r);
    RefundEntriesOfRow(v.order, w.order, w.refunds);
    RefundEntriesOfRow(v.order, w.order, v.refunds);
    assert RefundEntry(w.order, r) == RefundEntry(v.order, r);
    hide PaidEntries, ReversalEntries, RefundEntries, RefundEntry;
  }

  lemma NextRefundEntries(order: Order, refunds: seq<Refund>, r: Refund)
    ensures RefundEntries(order, refunds + [r]) == RefundEntries(order, refunds) + RefundEntry(order, r)
  {
    assert (refunds + [r])[..|refunds|] == refunds;
    hide RefundEntry;
  }

  /** The parts of a payment and of its reversal depend on the hold, the referral's parties and the prices only. */
  lemma SamePaidParts(v: View, w: View, o: OrderId)
    requires w.order
             == v.order.(cashbackReversed := w.order.cashbackReversed, status := Refunded, refunded := w.order.refunded)
    requires w.hold == v.hold && (w.referral.Some? <==> v.referral.Some?)
    requires w.referral.Some? ==>
               && w.referral.value.referrer == v.referral.value.referrer
               && w.referral.value.reward == v.referral.value.reward
    ensures PaidEntries(w, o) == PaidEntries(v, o) && ReversalEntries(w, o) == ReversalEntries(v, o)
  {
    assert CapturePart(w, o) == CapturePart(v, o) && CashbackPart(w, o) == CashbackPart(v, o);
    assert RewardPart(w, o) == RewardPart(v, o);
    assert CashbackReversalPart(w, o) == CashbackReversalPart(v, o);
    assert RewardReversalPart(w, o) == RewardReversalPart(v, o);
    hide CapturePart, CashbackPart, RewardPart, CashbackReversalPart, RewardReversalPart;
  }
}
