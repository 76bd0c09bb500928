/** An order whose completion stopped half-way is already PAID, so refundOrder accepts it. What then becomes of its
    captures, cashback and referral reward, and what a completion that comes after the refund makes of them. */
module CrashRefund {
  import opened Domain
  import opened Ledger
  import opened Wallets
  import opened Orders
  import opened OrderView
  import opened Statements
  import opened Invariant
  import opened Balances
  import opened OrderGuarantees
  import opened CrashRetry

  // ----- on an order's view -----

  function MarkedPaid(v: View): View {
    v.(order := v.order.(status := Paid))
  }

  /** The entries of the first n writes of a payment. */
  function FirstEntries(v: View, o: OrderId, n: nat): seq<Own> {
    (if 1 <= n then CapturePart(VCapture(v, o), o) else [])
    + (if 2 <= n then CashbackPart(v, o) else [])
    + (if 4 <= n then RewardPart(v, o) else [])
  }

  /** The rows after the first n writes. */
  predicate StoppedRows(v: View, w: View, o: OrderId, n: nat) {
    && w.order == v.order.(cashbackTx := if 3 <= n && 0 < v.order.cashback then Some(0) else None)
    && w.hold == (if 1 <= n then VCapture(v, o).hold else v.hold)
    && w.referral == (if 5 <= n && v.referral.Some?
                      then Some(v.referral.value.(rewardTx := Some(0), status := Credited)) else v.referral)
    && w.refunds == []
  }

  /** A fresh key is a new entry. */
  lemma Posted(v: View, e: Own)
    requires e.key.Some?
    ensures VPost(v, e) == if OwnHas(v.own, e.key.value) then v else v.(own := v.own + [e])
  {
  }

  lemma StoppedCapture(v0: View, o: OrderId)
    requires ViewOk(v0, o) && v0.order.status == Unpaid
    ensures var v := MarkedPaid(v0);
            var w := VCapture(v, o);
            && v.own == [] && v.refunds == [] && v.order.cashbackTx.None? && !v.order.cashbackReversed
            && (v.referral.Some? ==> VRewardDue(v) && v.referral.value.reversalTx.None?)
            && w == v.(own := CapturePart(w, o), hold := w.hold)
            && w.hold == (if IsHeld(v.hold) then Some(v.hold.value.(status := Captured)) else v.hold)
            && (v.hold.Some? ==> v.hold.value.status in {Held, Lapsed} && v.hold.value.user == v.order.user
                                 && v.hold.value.amount == v.order.walletSpent)
  {
    VCaptureAdds(MarkedPaid(v0), o);
    hide VCapture, CapturePart, OrderValue, AmountSum;
  }

  lemma StoppedCashback(w: View, o: OrderId)
    requires w.order.cashbackTx.None? && !OwnHas(w.own, CashbackKey(o))
    ensures VCashback(w, o) == w.(own := w.own + CashbackPart(w, o))
    ensures VCashbackMark(VCashback(w, o), o)
         == w.(own := w.own + CashbackPart(w, o),
               order := w.order.(cashbackTx := if 0 < w.order.cashback then Some(0) else None))
  {
    VCashbackAdds(w, o);
  }

  lemma StoppedReward(w: View, o: OrderId)
    requires (w.referral.Some? ==> VRewardDue(w)) && !OwnHas(w.own, RewardKey(o))
    ensures VReward(w, o) == w.(own := w.own + RewardPart(w, o))
    ensures VRewardMark(VReward(w, o), o)
         == w.(own := w.own + RewardPart(w, o),
               referral := if w.referral.Some? then Some(w.referral.value.(rewardTx := Some(0), status := Credited))
                 else None)
  {
    VRewardAdds(w, o);
  }

  /** None of the entries of a payment carries a key outside its own kinds. */
  lemma FirstKeys(v: View, o: OrderId, n: nat)
    ensures var own := FirstEntries(v, o, n);
            && (OwnHas(own, CaptureKey(o)) ==> 1 <= n && CapturePart(VCapture(v, o), o) != [])
            && (OwnHas(own, CashbackKey(o)) <==> 2 <= n && 0 < v.order.cashback)
            && (OwnHas(own, RewardKey(o)) <==> 4 <= n && v.referral.Some?)
            && !OwnHas(own, CashbackReversalKey(o)) && !OwnHas(own, RewardReversalKey(o))
            && forall id :: !OwnHas(own, RefundExuKey(id)) && !OwnHas(own, RefundCashKey(id))
  {
    var a := if 1 <= n then CapturePart(VCapture(v, o), o) else [];
    var b := if 2 <= n then CashbackPart(v, o) else [];
    var c := if 4 <= n then RewardPart(v, o) else [];
    CaptureKeys(VCapture(v, o), o);
    CashbackKeys(v, o);
    RewardKeys(v, o);
    NoKeys();
    hide VCapture, CapturePart, CashbackPart, RewardPart, OwnHas;
    forall key ensures OwnHas(FirstEntries(v, o, n), key) <==> OwnHas(a, key) || OwnHas(b, key) || OwnHas(c, key) {
      HasConcat(a, b, key);
      HasConcat(a + b, c, key);
    }
  }

  lemma HasConcat(a: seq<Own>, b: seq<Own>, key: Key)
    ensures OwnHas(a + b, key) <==> OwnHas(a, key) || OwnHas(b, key)
  {
    if OwnHas(a, key) {
      HasInMore(a, b, key);
    } else if OwnHas(b, key) {
      var i :| 0 <= i < |b| && b[i].key == Some(key);
      assert (a + b)[|a| + i].key == Some(key);
    }
  }

  lemma CaptureKeys(v: View, o: OrderId)
    ensures forall key :: OwnHas(CapturePart(v, o), key) ==> key == CaptureKey(o) && CapturePart(v, o) != []
  {
  }

  lemma CashbackKeys(v: View, o: OrderId)
    ensures forall key :: OwnHas(CashbackPart(v, o), key) <==> key == CashbackKey(o) && 0 < v.order.cashback
  {
    if 0 < v.order.cashback {
      assert CashbackPart(v, o)[0].key == Some(CashbackKey(o));
    }
  }

  lemma RewardKeys(v: View, o: OrderId)
    ensures forall key :: OwnHas(RewardPart(v, o), key) <==> key == RewardKey(o) && v.referral.Some?
  {
    if v.referral.Some? {
      assert RewardPart(v, o)[0].key == Some(RewardKey(o));
    }
  }

  lemma NoKeys()
    ensures forall key :: !OwnHas([], key)
  {
  }

  lemma StagesUnfold(v: View, o: OrderId)
    ensures var w1 := VCapture(v, o);
            var w3 := VCashbackMark(VCashback(w1, o), o);
            && VBenefitsUpTo(v, o, 0) == v && VBenefitsUpTo(v, o, 1) == w1
            && VBenefitsUpTo(v, o, 2) == VCashback(w1, o) && VBenefitsUpTo(v, o, 3) == w3
            && VBenefitsUpTo(v, o, 4) == VReward(w3, o) && VBenefitsUpTo(v, o, 5) == VRewardMark(VReward(w3, o), o)
  {
    hide VCapture, VCashback, VCashbackMark, VReward, VRewardMark;
    var w1 := VBenefitsUpTo(v, o, 1);
    var w2 := VBenefitsUpTo(v, o, 2);
    var w3 := VBenefitsUpTo(v, o, 3);
    var w4 := VBenefitsUpTo(v, o, 4);
    assert w1 == VCapture(VBenefitsUpTo(v, o, 0), o) && w2 == VCashback(w1, o) && w3 == VCashbackMark(w2, o)
           && w4 == VReward(w3, o);
  }

  /** The parts are read off rows that the writes before them leave alone. */
  lemma SameParts(v: View, w: View, o: OrderId)
    requires w.order == v.order.(cashbackTx := w.order.cashbackTx) && w.referral == v.referral
    ensures CashbackPart(w, o) == CashbackPart(v, o) && RewardPart(w, o) == RewardPart(v, o)
  {
  }

  /** What the first n writes of a payment leave. */
  lemma Stopped(v0: View, o: OrderId, n: nat)
    requires ViewOk(v0, o) && v0.order.status == Unpaid && n <= BENEFIT_STAGES
    ensures var v := MarkedPaid(v0);
            var w := VBenefitsUpTo(v, o, n);
            w.own == FirstEntries(v, o, n) && StoppedRows(v, w, o, n)
  {
    var v := MarkedPaid(v0);
    StoppedCapture(v0, o);
    StagesUnfold(v, o);
    FirstKeys(v, o, 1);
    FirstKeys(v, o, 3);
    var w1 := VCapture(v, o);
    var w3 := VCashbackMark(VCashback(w1, o), o);
    hide ViewOk, VCapture, VCashback, VCashbackMark, VReward, VRewardMark, VBenefitsUpTo, CapturePart, CashbackPart,
         RewardPart;
    assert w1.own == FirstEntries(v, o, 1) by {
      assert CapturePart(w1, o) + [] + [] == CapturePart(w1, o);
    }
    StoppedCashback(w1, o);
    SameParts(v, w1, o);
    assert w3.own == FirstEntries(v, o, 3);
    StoppedReward(w3, o);
    SameParts(v, w3, o);
  }

  /** What a refund then adds: a reversal of the cashback whether it was posted or not, a reversal of the reward only
      if its id was written back, and the returns. */
  function RefundAdded(v: View, o: OrderId, n: nat, r: Refund): seq<Own> {
    CashbackReversalPart(v, o) + (if n == 5 then RewardReversalPart(v, o) else []) + RefundEntry(v.order, r)
  }

  /** The rows after that refund. */
  predicate RefundedHalfway(v: View, x: View, o: OrderId, n: nat, r: Refund) {
    && x.own == FirstEntries(v, o, n) + RefundAdded(v, o, n, r)
    && x.order.user == v.order.user && x.order.cashback == v.order.cashback
    && x.order.walletSpent == v.order.walletSpent
    && (x.order.cashbackTx.Some? <==> 3 <= n && 0 < v.order.cashback)
    && x.hold == (if 1 <= n then VCapture(v, o).hold else v.hold)
    && !VRewardDue(x)
  }

  predicate NoRefundKeys(own: seq<Own>, id: nat) {
    !OwnHas(own, RefundExuKey(id)) && !OwnHas(own, RefundCashKey(id))
  }

  lemma ReversedHalfway(v: View, w: View, o: OrderId, n: nat)
    requires StoppedRows(v, w, o, n) && w.own == FirstEntries(v, o, n) && n <= BENEFIT_STAGES
    requires !v.order.cashbackReversed
    requires v.referral.Some? ==> VRewardDue(v) && v.referral.value.reversalTx.None?
    ensures var x := VReverse(w, o);
            && x.own == FirstEntries(v, o, n) + CashbackReversalPart(v, o)
              + (if n == 5 then RewardReversalPart(v, o) else [])
            && x.order == w.order.(cashbackReversed := 0 < v.order.cashback) && x.hold == w.hold && !VRewardDue(x)
            && x.refunds == w.refunds
  {
    FirstKeys(v, o, n);
    hide FirstEntries, VCapture;
    VReverseCashbackAdds(w, o);
    var w1 := VReverseCashback(w, o);
    assert CashbackReversalPart(w, o) == CashbackReversalPart(v, o);
    if n == 5 && w.referral.Some? {
      NotInMore(w.own, CashbackReversalPart(v, o), RewardReversalKey(o));
      VReverseReferralAdds(w1, o);
      assert RewardReversalPart(w1, o) == RewardReversalPart(v, o);
    }
  }

  lemma NotInMore(a: seq<Own>, b: seq<Own>, key: Key)
    requires !OwnHas(a, key) && !OwnHas(b, key)
    ensures !OwnHas(a + b, key)
  {
  }

  lemma RefundHalfway(v0: View, o: OrderId, n: nat, r: Refund)
    requires ViewOk(v0, o) && v0.order.status == Unpaid && n <= BENEFIT_STAGES
    ensures var v := MarkedPaid(v0);
            RefundedHalfway(v, VRefund(VBenefitsUpTo(v, o, n), o, r), o, n, r)
  {
    var v := MarkedPaid(v0);
    var w := VBenefitsUpTo(v, o, n);
    StoppedCapture(v0, o);
    Stopped(v0, o, n);
    ReversedHalfway(v, w, o, n);
    var x := VReverse(w, o);
    hide ViewOk, VCapture, VBenefitsUpTo, FirstEntries, CashbackReversalPart, RewardReversalPart, VReverse, VRefund,
         OwnHas,
         VRewardDue, RefundEntry, RefundAdded, NoRefundKeys;
    NoReversedKeys(v, o, n, r.id, x.own);
    ReturnsHalfway(w, x, o, r);
    RefundEntryOfRow(v.order, w.order, r);
    Added(v, o, n, r, x.own);
    DueIgnoresRest(x, VRefund(w, o, r));
  }

  lemma NoReversedKeys(v: View, o: OrderId, n: nat, id: nat, own: seq<Own>)
    requires own == FirstEntries(v, o, n) + CashbackReversalPart(v, o)
             + (if n == 5 then RewardReversalPart(v, o) else [])
    ensures NoRefundKeys(own, id)
  {
    var first := FirstEntries(v, o, n);
    var back := CashbackReversalPart(v, o) + (if n == 5 then RewardReversalPart(v, o) else []);
    FirstKeys(v, o, n);
    ReversalKeys(v, o, id, n);
    hide FirstEntries, CashbackReversalPart, RewardReversalPart;
    assert own == first + back;
    hide OwnHas;
    NotInMore(first, back, RefundExuKey(id));
    NotInMore(first, back, RefundCashKey(id));
  }

  lemma Added(v: View, o: OrderId, n: nat, r: Refund, own: seq<Own>)
    requires own == FirstEntries(v, o, n) + CashbackReversalPart(v, o)
             + (if n == 5 then RewardReversalPart(v, o) else [])
    ensures own + RefundEntry(v.order, r) == FirstEntries(v, o, n) + RefundAdded(v, o, n, r)
  {
    hide FirstEntries, CashbackReversalPart, RewardReversalPart, RefundEntry;
  }

  lemma DueIgnoresRest(v: View, w: View)
    requires v.referral == w.referral
    ensures VRewardDue(v) <==> VRewardDue(w)
  {
  }

  lemma ReturnsHalfway(w: View, x: View, o: OrderId, r: Refund)
    requires x == VReverse(w, o) && x.refunds == w.refunds
    requires NoRefundKeys(x.own, r.id)
    requires x.order == w.order.(cashbackReversed := x.order.cashbackReversed)
    ensures var y := VRefund(w, o, r);
            && y.own == x.own + RefundEntry(w.order, r)
            && y.order == x.order.(status := Refunded, refunded := w.order.refunded + r.amount)
            && y.hold == x.hold && y.referral == x.referral
  {
    VRefundParts(w, o, w.order, r);
    VReverseIgnoresRefunds(w, o, w.refunds + [r]);
    hide VRefund, VReverse;
    VReturnsAdd(x.(refunds := w.refunds + [r]), w.order, r);
    hide VReturn, RefundEntry;
  }

  lemma ReversalKeys(v: View, o: OrderId, id: nat, n: nat)
    ensures NoRefundKeys(CashbackReversalPart(v, o) + (if n == 5 then RewardReversalPart(v, o) else []), id)
  {
  }

  lemma RefundEntryOfRow(order: Order, order': Order, r: Refund)
    requires order' == order.(cashbackTx := order'.cashbackTx)
    ensures RefundEntry(order', r) == RefundEntry(order, r)
  {
  }

  // ----- a completion that comes after the refund -----

  /** What is still missing then: the capture and the cashback, but no longer the reward. */
  function LateEntries(v: View, o: OrderId, n: nat): seq<Own> {
    (if n == 0 then CapturePart(VCapture(v, o), o) else []) + (if n < 2 then CashbackPart(v, o) else [])
  }

  lemma AddedKeys(v: View, o: OrderId, n: nat, r: Refund)
    ensures !OwnHas(RefundAdded(v, o, n, r), CaptureKey(o)) && !OwnHas(RefundAdded(v, o, n, r), CashbackKey(o))
  {
    hide ExuShare;
  }

  lemma HasInMore(a: seq<Own>, b: seq<Own>, key: Key)
    requires OwnHas(a, key)
    ensures OwnHas(a + b, key)
  {
    var i :| 0 <= i < |a| && a[i].key == Some(key);
    assert (a + b)[i].key == Some(key);
  }

  lemma LateCapture(v0: View, x: View, o: OrderId, n: nat, r: Refund)
    requires ViewOk(v0, o) && v0.order.status == Unpaid && RefundedHalfway(MarkedPaid(v0), x, o, n, r)
    ensures var v := MarkedPaid(v0);
            var x1 := VCapture(x, o);
            && x1.order == x.order && x1.referral == x.referral
            && x1.own == x.own + if n == 0 then CapturePart(VCapture(v, o), o) else []
  {
    var v := MarkedPaid(v0);
    StoppedCapture(v0, o);
    AddedKeys(v, o, n, r);
    hide RefundAdded, ViewOk;
    if n == 0 && IsHeld(v.hold) {
      assert x.own == RefundAdded(v, o, n, r);
      Posted(x, Own(v.order.user, RedemptionCapture, Minus(v.order.walletSpent), Some(CaptureKey(o))));
    }
  }

  lemma LateCashback(v: View, x: View, x1: View, o: OrderId, n: nat, r: Refund)
    requires RefundedHalfway(v, x, o, n, r) && x1.order == x.order
    requires x1.own == x.own + if n == 0 then CapturePart(VCapture(v, o), o) else []
    ensures var x3 := VCashbackMark(VCashback(x1, o), o);
            x3.own == x1.own + (if n < 2 then CashbackPart(v, o) else []) && x3.referral == x1.referral
  {
    FirstKeys(v, o, n);
    AddedKeys(v, o, n, r);
    var late := if n == 0 then CapturePart(VCapture(v, o), o) else [];
    assert !OwnHas(late, CashbackKey(o));
    var first, more := FirstEntries(v, o, n), RefundAdded(v, o, n, r);
    hide FirstEntries, RefundAdded, VCapture, CapturePart, OwnHas;
    if n < 2 {
      NotInMore(first, more, CashbackKey(o));
      NotInMore(first + more, late, CashbackKey(o));
      StoppedCashback(x1, o);
    } else if n == 2 && 0 < v.order.cashback {
      HasInMore(first, more, CashbackKey(o));
      assert x1.own == x.own;
      Posted(x1, Own(x1.order.user, OrderCashback, x1.order.cashback, Some(CashbackKey(o))));
    }
  }

  lemma CompletedHalfway(v0: View, x: View, o: OrderId, n: nat, r: Refund)
    requires ViewOk(v0, o) && v0.order.status == Unpaid && RefundedHalfway(MarkedPaid(v0), x, o, n, r)
    ensures VBenefitsUpTo(x, o, BENEFIT_STAGES).own == x.own + LateEntries(MarkedPaid(v0), o, n)
  {
    var v := MarkedPaid(v0);
    var x1 := VCapture(x, o);
    var x3 := VCashbackMark(VCashback(x1, o), o);
    LateCapture(v0, x, o, n, r);
    LateCashback(v, x, x1, o, n, r);
    StagesUnfold(x, o);
    DueIgnoresRest(x, x3);
    assert !VRewardDue(x3) && VRewardMark(VReward(x3, o), o) == x3;
    hide ViewOk, RefundedHalfway, VCapture, VCashback, VCashbackMark, VReward, VRewardMark, VBenefitsUpTo,
         CapturePart, CashbackPart;
  }

  // ----- the sums -----

  lemma SumsAdd(a: seq<Own>, b: seq<Own>)
    ensures Sum(a + b, CAPTURES) == Sum(a, CAPTURES) + Sum(b, CAPTURES)
    ensures Sum(a + b, CASHBACKS) == Sum(a, CASHBACKS) + Sum(b, CASHBACKS)
    ensures Sum(a + b, REWARDS) == Sum(a, REWARDS) + Sum(b, REWARDS)
  {
    SumConcat(a, b, CAPTURES);
    SumConcat(a, b, CASHBACKS);
    SumConcat(a, b, REWARDS);
  }

  lemma FirstSums(v0: View, o: OrderId, n: nat)
    requires ViewOk(v0, o) && v0.order.status == Unpaid
    ensures var v := MarkedPaid(v0);
            var own := FirstEntries(v, o, n);
            && Sum(own, CAPTURES) == (if 1 <= n && IsHeld(v.hold) then Minus(v.order.walletSpent) else 0)
            && Sum(own, CASHBACKS) == (if 2 <= n then v.order.cashback else 0)
            && Sum(own, REWARDS) == (if 4 <= n then RewardOf(v) else 0)
  {
    var v := MarkedPaid(v0);
    StoppedCapture(v0, o);
    var w := VCapture(v, o);
    PartSums(w, o);
    SameParts(v, w, o);
    var a := if 1 <= n then CapturePart(w, o) else [];
    var b := if 2 <= n then CashbackPart(v, o) else [];
    var c := if 4 <= n then RewardPart(v, o) else [];
    SumsAdd(a, b);
    SumsAdd(a + b, c);
    NoSum();
    hide ViewOk, Sum, CapturePart, CashbackPart, RewardPart, VCapture;
  }

  lemma AddedSums(v: View, o: OrderId, n: nat, r: Refund)
    ensures var own := RefundAdded(v, o, n, r);
            && Sum(own, CAPTURES) == 0
            && Sum(own, CASHBACKS) == Minus(v.order.cashback)
            && Sum(own, REWARDS) == (if n == 5 then Minus(RewardOf(v)) else 0)
  {
    ReversalSums(v, o);
    RefundEntrySums(v.order, r);
    var a := CashbackReversalPart(v, o);
    var b := if n == 5 then RewardReversalPart(v, o) else [];
    var c := RefundEntry(v.order, r);
    SumsAdd(a, b);
    SumsAdd(a + b, c);
    NoSum();
    hide Sum, CashbackReversalPart, RewardReversalPart, RefundEntry;
  }

  lemma LateSums(v0: View, o: OrderId, n: nat)
    requires ViewOk(v0, o) && v0.order.status == Unpaid
    ensures var v := MarkedPaid(v0);
            var own := LateEntries(v, o, n);
            && Sum(own, CAPTURES) == (if n == 0 && IsHeld(v.hold) then Minus(v.order.walletSpent) else 0)
            && Sum(own, CASHBACKS) == (if n < 2 then v.order.cashback else 0)
            && Sum(own, REWARDS) == 0
  {
    var v := MarkedPaid(v0);
    StoppedCapture(v0, o);
    var w := VCapture(v, o);
    PartSums(w, o);
    SameParts(v, w, o);
    var a := if n == 0 then CapturePart(w, o) else [];
    var b := if n < 2 then CashbackPart(v, o) else [];
    SumsAdd(a, b);
    NoSum();
    hide ViewOk, Sum, CapturePart, CashbackPart, RewardPart, VCapture;
  }

  // ----- on the database -----

  function MarkPaid(db: Db, o: OrderId): (r: Db)
    requires o < |db.orders|
    ensures |r.orders| == |db.orders|
  {
    db.(orders := db.orders[o := db.orders[o].(status := Paid)])
  }

  /** finalizePaidOrder stopped after n of the writes of its completion, and the refund accepted then. */
  function StoppedAfter(db: Db, o: OrderId, n: nat): (r: Db)
    requires o < |db.orders| && n <= BENEFIT_STAGES
    ensures |r.orders| == |db.orders|
  {
    BenefitsUpTo(MarkPaid(db, o), o, n)
  }

  lemma MarkedView(db: Db, o: OrderId)
    requires Books(db) && o < |db.orders|
    ensures Books(MarkPaid(db, o)) && ViewAt(MarkPaid(db, o), o) == MarkedPaid(ViewAt(db, o))
  {
    RowsKeepBooks(db, MarkPaid(db, o));
    hide Books, OwnEntries, RefundsOf;
  }

  lemma HalfwayViews(db: Db, o: OrderId, n: nat, amount: int, mode: RefundMode)
    requires Inv(db) && o < |db.orders| && db.orders[o].status == Unpaid && n <= BENEFIT_STAGES
    requires RefundOrder(StoppedAfter(db, o, n), o, amount, mode).Ok?
    ensures ViewOk(ViewAt(db, o), o) && ViewAt(db, o).order.status == Unpaid
    ensures var after := RefundOrder(StoppedAfter(db, o, n), o, amount, mode).value;
            && |after.orders| == |db.orders| && Books(after) && 0 <= amount
            && RefundedHalfway(MarkedPaid(ViewAt(db, o)), ViewAt(after, o), o, n, Refund(|db.refunds|, o, amount, mode))
  {
    RowOfView(db, o);
    assert ViewOk(ViewAt(db, o), o);
    MarkedView(db, o);
    var stopped := StoppedAfter(db, o, n);
    StoppedRefunds(db, o, n);
    hide Books, ViewsOk, ViewAt, ViewOk, MarkPaid, BenefitsUpTo, RefundOrder, RefundRun, RefundedHalfway, VRefund,
         VBenefitsUpTo;
    AttemptView(MarkPaid(db, o), o, n);
    RefundIsRun(stopped, o, amount, mode);
    var r := Refund(|stopped.refunds|, o, amount, mode);
    RefundRunBooks(stopped, o, r);
    RefundRunView(stopped, o, r, o);
    RefundHalfway(ViewAt(db, o), o, n, r);
  }

  lemma {:induction false} StoppedRefunds(db: Db, o: OrderId, n: nat)
    requires o < |db.orders| && n <= BENEFIT_STAGES
    ensures StoppedAfter(db, o, n).refunds == db.refunds
  {
    hide Post;
    if n > 0 {
      StoppedRefunds(db, o, n - 1);
    }
  }

  /** A refund that comes after the first n writes of a payment reverses the cashback in any case and the reward only
      when it was credited: right after it the cashback nets to zero if and only if it had been posted or there was
      none, and the referrer keeps the reward if and only if it had been posted without being written back. */
  lemma {:induction false} RefundAfterStop(db: Db, o: OrderId, n: nat, amount: int, mode: RefundMode)
    requires Inv(db) && o < |db.orders| && db.orders[o].status == Unpaid && n <= BENEFIT_STAGES
    requires RefundOrder(StoppedAfter(db, o, n), o, amount, mode).Ok?
    ensures var own := OwnEntries(RefundOrder(StoppedAfter(db, o, n), o, amount, mode).value.ledger, o);
            var order := db.orders[o];
            && Sum(own, CAPTURES) == (if 1 <= n && HoldDue(db, o) then Minus(order.walletSpent) else 0)
            && Sum(own, CASHBACKS) == (if 2 <= n then 0 else Minus(order.cashback))
            && (Sum(own, CASHBACKS) == 0 <==> 2 <= n || order.cashback == 0)
            && Sum(own, REWARDS) == (if n == 4 && o in db.referrals then db.referrals[o].reward else 0)
  {
    var after := RefundOrder(StoppedAfter(db, o, n), o, amount, mode).value;
    HalfwayViews(db, o, n, amount, mode);
    RowsOfView(db, o);
    RowsOfView(after, o);
    var v0 := ViewAt(db, o);
    NotNegative(v0, o);
    hide Inv, ViewAt, ViewOk, RefundOrder, StoppedAfter, Books, RefundedHalfway, OwnEntries, Sum;
    HalfwaySums(v0, ViewAt(after, o), o, n, Refund(|db.refunds|, o, amount, mode));
  }

  lemma HalfwaySums(v0: View, x: View, o: OrderId, n: nat, r: Refund)
    requires ViewOk(v0, o) && v0.order.status == Unpaid && RefundedHalfway(MarkedPaid(v0), x, o, n, r)
    requires n <= BENEFIT_STAGES
    ensures Sum(x.own, CAPTURES) == (if 1 <= n && IsHeld(v0.hold) then Minus(v0.order.walletSpent) else 0)
    ensures Sum(x.own, CASHBACKS) == (if 2 <= n then 0 else Minus(v0.order.cashback))
    ensures Sum(x.own, REWARDS) == (if n == 4 then RewardOf(v0) else 0)
  {
    var v := MarkedPaid(v0);
    hide ViewOk, FirstEntries, RefundAdded, Sum;
    FirstSums(v0, o, n);
    AddedSums(v, o, n, r);
    SumsAdd(FirstEntries(v, o, n), RefundAdded(v, o, n, r));
  }

  lemma NotNegative(v: View, o: OrderId)
    ensures 0 <= v.order.cashback && 0 <= v.order.walletSpent
  {
  }

  lemma CompletedOwn(db: Db, o: OrderId, n: nat, amount: int, mode: RefundMode)
    requires Inv(db) && o < |db.orders| && db.orders[o].status == Unpaid && n <= BENEFIT_STAGES
    requires RefundOrder(StoppedAfter(db, o, n), o, amount, mode).Ok?
    ensures var refunded := RefundOrder(StoppedAfter(db, o, n), o, amount, mode).value;
            && o < |refunded.orders|
            && OwnEntries(CompleteBenefits(refunded, o).ledger, o)
               == OwnEntries(refunded.ledger, o) + LateEntries(MarkedPaid(ViewAt(db, o)), o, n)
  {
    var refunded := RefundOrder(StoppedAfter(db, o, n), o, amount, mode).value;
    HalfwayViews(db, o, n, amount, mode);
    BooksShapes(refunded);
    RowsOfView(refunded, o);
    RowsOfView(CompleteBenefits(refunded, o), o);
    hide Inv, ViewAt, ViewOk, RefundOrder, StoppedAfter, Books, RefundedHalfway, CompleteBenefits, VBenefitsUpTo,
         OwnEntries, LateEntries, Shapes;
    CompleteView(refunded, o);
    CompletedHalfway(ViewAt(db, o), ViewAt(refunded, o), o, n, Refund(|db.refunds|, o, amount, mode));
  }

  /** A completion that comes even later takes the held eXu and posts the cashback after all, which then nets to zero
      in every case; the referral stays as the refund left it. */
  lemma {:induction false} CompletionAfterRefund(db: Db, o: OrderId, n: nat, amount: int, mode: RefundMode)
    requires Inv(db) && o < |db.orders| && db.orders[o].status == Unpaid && n <= BENEFIT_STAGES
    requires RefundOrder(StoppedAfter(db, o, n), o, amount, mode).Ok?
    ensures var refunded := RefundOrder(StoppedAfter(db, o, n), o, amount, mode).value;
            && o < |refunded.orders|
            && var own := OwnEntries(CompleteBenefits(refunded, o).ledger, o);
               && Sum(own, CAPTURES) == (if HoldDue(db, o) then Minus(db.orders[o].walletSpent) else 0)
               && Sum(own, CASHBACKS) == 0
               && Sum(own, REWARDS) == (if n == 4 && o in db.referrals then db.referrals[o].reward else 0)
  {
    RefundAfterStop(db, o, n, amount, mode);
    CompletedOwn(db, o, n, amount, mode);
    HalfwayViews(db, o, n, amount, mode);
    RowsOfView(db, o);
    var refunded := RefundOrder(StoppedAfter(db, o, n), o, amount, mode).value;
    var v0 := ViewAt(db, o);
    hide Inv, ViewAt, ViewOk, RefundOrder, StoppedAfter, Books, RefundedHalfway, CompleteBenefits, OwnEntries,
         LateEntries, Sum;
    SumsAfterLate(v0, o, n, OwnEntries(refunded.ledger, o));
  }

  lemma SumsAfterLate(v0: View, o: OrderId, n: nat, own: seq<Own>)
    requires ViewOk(v0, o) && v0.order.status == Unpaid
    requires Sum(own, CAPTURES) == (if 1 <= n && IsHeld(v0.hold) then Minus(v0.order.walletSpent) else 0)
    requires Sum(own, CASHBACKS) == (if 2 <= n then 0 else Minus(v0.order.cashback))
    ensures var done := own + LateEntries(MarkedPaid(v0), o, n);
            && Sum(done, CAPTURES) == (if IsHeld(v0.hold) then Minus(v0.order.walletSpent) else 0)
            && Sum(done, CASHBACKS) == 0 && Sum(done, REWARDS) == Sum(own, REWARDS)
  {
    hide ViewOk, LateEntries, Sum;
    LateSums(v0, o, n);
    SumsAdd(own, LateEntries(MarkedPaid(v0), o, n));
  }
}
