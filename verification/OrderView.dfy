/** The database seen from one order: its row, its hold, its referral, its own ledger entries and its refunds.
    Every handler changes the view of one order only, and by a function of that view. */
module OrderView {
  import opened Domain
  import opened Ledger
  import opened Wallets
  import opened Orders

  datatype Own = Own(user: UserId, tx: TxType, amount: int, key: Option<Key>)
  datatype View = View(order: Order, hold: Option<Hold>, referral: Option<Referral>, own: seq<Own>,
                       refunds: seq<Refund>)

  function OwnOf(e: Entry): Own {
    Own(e.user, e.tx, e.amount, e.key)
  }

  function OwnEntries(ledger: seq<Entry>, o: OrderId): seq<Own> {
    if |ledger| == 0 then []
    else
      var last := |ledger| - 1;
      OwnEntries(ledger[..last], o) + if ledger[last].order == Some(o) then [OwnOf(ledger[last])] else []
  }

  function RefundsOf(refunds: seq<Refund>, o: OrderId): seq<Refund> {
    if |refunds| == 0 then []
    else
      var last := |refunds| - 1;
      RefundsOf(refunds[..last], o) + if refunds[last].order == o then [refunds[last]] else []
  }

  /** Transaction ids are positions in the shared log; an order's view keeps only whether they are set. */
  function Mark(id: Option<TxId>): Option<TxId> {
    if id.Some? then Some(0) else None
  }

  function ReferralView(referral: Referral): Referral {
    referral.(rewardTx := Mark(referral.rewardTx), reversalTx := Mark(referral.reversalTx))
  }

  function Lookup<T>(m: map<OrderId, T>, o: OrderId): Option<T> {
    if o in m then Some(m[o]) else None
  }

  function ReferralRow(db: Db, o: OrderId): Option<Referral> {
    if o in db.referrals then Some(ReferralView(db.referrals[o])) else None
  }

  function ViewAt(db: Db, o: OrderId): View
    requires o < |db.orders|
  {
    View(db.orders[o].(cashbackTx := Mark(db.orders[o].cashbackTx)), Lookup(db.holds, o), ReferralRow(db, o),
         OwnEntries(db.ledger, o), RefundsOf(db.refunds, o))
  }

  // ----- shapes: whose entry is which -----

  predicate OrderKey(key: Key) {
    !key.RefundExuKey? && !key.RefundCashKey? && !key.ExpiryKey?
  }

  predicate RefundKey(key: Key) {
    key.RefundExuKey? || key.RefundCashKey?
  }

  predicate EntryShape(e: Entry, orders: nat, refunds: nat) {
    && (e.order.Some? ==> e.order.value < orders)
    && (e.key.Some? && OrderKey(e.key.value) ==> e.order == Some(e.key.value.order))
    && (e.key.Some? && RefundKey(e.key.value) ==> e.key.value.refund < refunds && e.order.Some?)
  }

  ghost predicate Shapes(db: Db) {
    && (forall i :: 0 <= i < |db.ledger| ==> EntryShape(db.ledger[i], |db.orders|, |db.refunds|))
    && (forall i :: 0 <= i < |db.refunds| ==> db.refunds[i].id == i && db.refunds[i].order < |db.orders|)
    && (forall o :: o in db.holds ==> o < |db.orders|)
    && (forall o :: o in db.referrals ==> o < |db.orders|)
  }

  predicate OwnHas(own: seq<Own>, key: Key) {
    exists i :: 0 <= i < |own| && own[i].key == Some(key)
  }

  lemma OwnAppend(ledger: seq<Entry>, e: Entry, o: OrderId)
    ensures OwnEntries(ledger + [e], o) == OwnEntries(ledger, o) + if e.order == Some(o) then [OwnOf(e)] else []
  {
    assert (ledger + [e])[..|ledger|] == ledger;
  }

  lemma RefundsAppend(refunds: seq<Refund>, r: Refund, o: OrderId)
    ensures RefundsOf(refunds + [r], o) == RefundsOf(refunds, o) + if r.order == o then [r] else []
  {
    assert (refunds + [r])[..|refunds|] == refunds;
  }

  lemma {:induction false} FindKeyIsOwn(ledger: seq<Entry>, o: OrderId, key: Key)
    requires forall i :: 0 <= i < |ledger| && ledger[i].key == Some(key) ==> ledger[i].order == Some(o)
    ensures FindKey(ledger, key).Some? <==> OwnHas(OwnEntries(ledger, o), key)
  {
    if |ledger| > 0 {
      var last := |ledger| - 1;
      var before := OwnEntries(ledger[..last], o);
      var own := OwnEntries(ledger, o);
      FindKeyIsOwn(ledger[..last], o, key);
      if OwnHas(before, key) {
        var i :| 0 <= i < |before| && before[i].key == Some(key);
        assert own[i].key == Some(key);
      }
      if ledger[last].key == Some(key) {
        assert own[|before|].key == Some(key);
      }
    }
  }

  lemma {:induction false} NoOwnEntries(ledger: seq<Entry>, o: OrderId)
    requires forall i :: 0 <= i < |ledger| ==> ledger[i].order != Some(o)
    ensures OwnEntries(ledger, o) == []
  {
    if |ledger| > 0 {
      NoOwnEntries(ledger[..|ledger| - 1], o);
    }
  }

  lemma {:induction false} NoRefunds(refunds: seq<Refund>, o: OrderId)
    requires forall i :: 0 <= i < |refunds| ==> refunds[i].order != o
    ensures RefundsOf(refunds, o) == []
  {
    if |refunds| > 0 {
      NoRefunds(refunds[..|refunds| - 1], o);
    }
  }

  // ----- one posting -----

  predicate Fits(db: Db, order: Option<OrderId>, key: Option<Key>) {
    && (order.Some? ==> order.value < |db.orders|)
    && (key.Some? && OrderKey(key.value) ==> order == Some(key.value.order))
    && (key.Some? && RefundKey(key.value) ==> key.value.refund < |db.refunds| && order.Some?)
  }

  lemma PostKeepsShapes(db: Db, user: UserId, tx: TxType, amount: int, order: Option<OrderId>, key: Option<Key>)
    requires amount != 0 && Shapes(db) && Fits(db, order, key)
    ensures Shapes(Post(db, user, tx, amount, order, key).db)
  {
  }

  function VPost(v: View, e: Own): View
    requires e.key.Some?
  {
    if OwnHas(v.own, e.key.value) then v else v.(own := v.own + [e])
  }

  predicate KeyFits(o: OrderId, key: Key, refunds: nat) {
    if OrderKey(key) then key.order == o else RefundKey(key) && key.refund < refunds
  }

  /** Nobody else's entry carries this key. */
  ghost predicate KeyIsOf(ledger: seq<Entry>, o: OrderId, key: Key) {
    forall i :: 0 <= i < |ledger| && ledger[i].key == Some(key) ==> ledger[i].order == Some(o)
  }

  /** Appending an entry adds it to the view of its own order and changes no other view. */
  lemma AppendView(db: Db, after: Db, e: Entry, p: OrderId)
    requires p < |db.orders| && after.ledger == db.ledger + [e] && after.orders == db.orders
    requires after.holds == db.holds && after.referrals == db.referrals && after.refunds == db.refunds
    ensures ViewAt(after, p) == ViewAt(db, p).(own := ViewAt(db, p).own + if e.order == Some(p) then [OwnOf(e)] else [])
  {
    OwnAppend(db.ledger, e, p);
    hide OwnEntries, RefundsOf;
  }

  lemma PostAppends(db: Db, user: UserId, tx: TxType, amount: int, order: Option<OrderId>, key: Option<Key>, p: OrderId)
    requires amount != 0 && p < |db.orders|
    ensures var after := Post(db, user, tx, amount, order, key).db;
            && after.orders == db.orders && (key.Some? ==> FindKey(after.ledger, key.value).Some?)
            && (Replayed(db, key) ==> after == db)
            && (!Replayed(db, key) ==>
                  var more := if order == Some(p) then [Own(user, tx, amount, key)] else [];
                  ViewAt(after, p) == ViewAt(db, p).(own := ViewAt(db, p).own + more))
  {
    hide ViewAt;
    if !Replayed(db, key) {
      var after := Post(db, user, tx, amount, order, key).db;
      var e := after.ledger[|db.ledger|];
      AppendView(db, after, e, p);
      if key.Some? {
        FindKeyAppend(db.ledger, e, key.value);
      }
    }
  }

  lemma PostView(db: Db, user: UserId, tx: TxType, amount: int, o: OrderId, key: Key, p: OrderId)
    requires amount != 0 && Shapes(db) && o < |db.orders| && p < |db.orders|
    requires KeyFits(o, key, |db.refunds|) && KeyIsOf(db.ledger, o, key)
    ensures var after := Post(db, user, tx, amount, Some(o), Some(key)).db;
            && Shapes(after)
            && FindKey(after.ledger, key).Some?
            && ViewAt(after, p) == if p == o then VPost(ViewAt(db, o), Own(user, tx, amount, Some(key)))
              else ViewAt(db, p)
  {
    PostKeepsShapes(db, user, tx, amount, Some(o), Some(key));
    PostAppends(db, user, tx, amount, Some(o), Some(key), p);
    FindKeyIsOwn(db.ledger, o, key);
    hide Shapes, Post, FindKey, OwnHas, OwnEntries, RefundsOf, ReferralRow, KeyIsOf;
  }

  /** A posting outside any order leaves every order's view alone. */
  lemma PlainPostView(db: Db, user: UserId, tx: TxType, amount: int, key: Option<Key>, p: OrderId)
    requires amount != 0 && Shapes(db) && p < |db.orders|
    requires key.Some? ==> key.value.ExpiryKey?
    ensures var after := Post(db, user, tx, amount, None, key).db;
            Shapes(after) && ViewAt(after, p) == ViewAt(db, p)
  {
    PostKeepsShapes(db, user, tx, amount, None, key);
    PostAppends(db, user, tx, amount, None, key, p);
    hide Shapes, Post, FindKey, OwnEntries, RefundsOf, ReferralRow;
  }

  // ----- the benefit stages on a view -----

  function VCapture(v: View, o: OrderId): View {
    if 0 < v.order.walletSpent && v.hold.Some? && v.hold.value.status == Held then
      var hold := v.hold.value;
      VPost(v, Own(hold.user, RedemptionCapture, Minus(hold.amount), Some(CaptureKey(o))))
        .(hold := Some(hold.(status := Captured)))
    else v
  }

  function VCashback(v: View, o: OrderId): View {
    if CashbackDue(v.order) then
      VPost(v, Own(v.order.user, OrderCashback, v.order.cashback, Some(CashbackKey(o))))
    else v
  }

  function VCashbackMark(v: View, o: OrderId): View {
    if CashbackDue(v.order) && OwnHas(v.own, CashbackKey(o)) then v.(order := v.order.(cashbackTx := Some(0))) else v
  }

  predicate VRewardDue(v: View) {
    v.referral.Some? && v.referral.value.status == Pending && v.referral.value.rewardTx.None?
  }

  function VReward(v: View, o: OrderId): View {
    if VRewardDue(v) then
      VPost(v, Own(v.referral.value.referrer, ReferralReward, v.referral.value.reward, Some(RewardKey(o))))
    else v
  }

  function VRewardMark(v: View, o: OrderId): View {
    if VRewardDue(v) && OwnHas(v.own, RewardKey(o)) then
      v.(referral := Some(v.referral.value.(rewardTx := Some(0), status := Credited)))
    else v
  }

  function VBenefitsUpTo(v: View, o: OrderId, n: nat): View
    requires n <= BENEFIT_STAGES
  {
    if n == 0 then v
    else
      var before := VBenefitsUpTo(v, o, n - 1);
      if n == 1 then VCapture(before, o)
      else if n == 2 then VCashback(before, o)
      else if n == 3 then VCashbackMark(before, o)
      else if n == 4 then VReward(before, o)
      else VRewardMark(before, o)
  }

  lemma CaptureView(db: Db, o: OrderId, p: OrderId)
    requires Shapes(db) && o < |db.orders| && p < |db.orders|
    ensures var after := CaptureStage(db, o);
            Shapes(after) && ViewAt(after, p) == if p == o then VCapture(ViewAt(db, o), o) else ViewAt(db, p)
  {
    hide Post, FindKey, OwnEntries, RefundsOf, OwnHas;
    if o in db.holds && db.holds[o].status == Held {
      var hold := db.holds[o];
      PostView(db, hold.user, RedemptionCapture, Minus(hold.amount), o, CaptureKey(o), p);
    }
  }

  lemma CashbackView(db: Db, o: OrderId, p: OrderId)
    requires Shapes(db) && o < |db.orders| && p < |db.orders|
    ensures var after := CashbackStage(db, o);
            Shapes(after) && ViewAt(after, p) == if p == o then VCashback(ViewAt(db, o), o) else ViewAt(db, p)
  {
    var order := db.orders[o];
    if CashbackDue(order) {
      PostView(db, order.user, OrderCashback, order.cashback, o, CashbackKey(o), p);
    }
  }

  lemma CashbackMarkView(db: Db, o: OrderId, p: OrderId)
    requires Shapes(db) && o < |db.orders| && p < |db.orders|
    ensures var after := CashbackMarkStage(db, o);
            Shapes(after) && ViewAt(after, p) == if p == o then VCashbackMark(ViewAt(db, o), o) else ViewAt(db, p)
  {
    FindKeyIsOwn(db.ledger, o, CashbackKey(o));
  }

  lemma RewardView(db: Db, o: OrderId, p: OrderId)
    requires Shapes(db) && o < |db.orders| && p < |db.orders|
    ensures var after := RewardStage(db, o);
            Shapes(after) && ViewAt(after, p) == if p == o then VReward(ViewAt(db, o), o) else ViewAt(db, p)
  {
    if RewardDue(db, o) {
      PostView(db, db.referrals[o].referrer, ReferralReward, db.referrals[o].reward, o, RewardKey(o), p);
    }
  }

  lemma RewardMarkView(db: Db, o: OrderId, p: OrderId)
    requires Shapes(db) && o < |db.orders| && p < |db.orders|
    ensures var after := RewardMarkStage(db, o);
            Shapes(after) && ViewAt(after, p) == if p == o then VRewardMark(ViewAt(db, o), o) else ViewAt(db, p)
  {
    FindKeyIsOwn(db.ledger, o, RewardKey(o));
  }

  lemma {:induction false} BenefitsView(db: Db, o: OrderId, n: nat, p: OrderId)
    requires Shapes(db) && o < |db.orders| && p < |db.orders| && n <= BENEFIT_STAGES
    ensures var after := BenefitsUpTo(db, o, n);
            Shapes(after) && ViewAt(after, p) == if p == o then VBenefitsUpTo(ViewAt(db, o), o, n) else ViewAt(db, p)
  {
    hide Shapes, ViewAt, CaptureStage, CashbackStage, CashbackMarkStage, RewardStage, RewardMarkStage;
    hide VCapture, VCashback, VCashbackMark, VReward, VRewardMark;
    if n > 0 {
      var before := BenefitsUpTo(db, o, n - 1);
      BenefitsView(db, o, n - 1, p);
      BenefitsView(db, o, n - 1, o);
      if n == 1 {
        CaptureView(before, o, p);
      } else if n == 2 {
        CashbackView(before, o, p);
      } else if n == 3 {
        CashbackMarkView(before, o, p);
      } else if n == 4 {
        RewardView(before, o, p);
      } else {
        RewardMarkView(before, o, p);
      }
    }
  }

  lemma BenefitsAreAllStages(db: Db, o: OrderId)
    requires o < |db.orders|
    ensures CompleteBenefits(db, o) == BenefitsUpTo(db, o, BENEFIT_STAGES)
  {
    var d1 := BenefitsUpTo(db, o, 1);
    assert d1 == CaptureStage(BenefitsUpTo(db, o, 0), o);
    var d2 := BenefitsUpTo(db, o, 2);
    assert d2 == CashbackStage(d1, o);
    var d3 := BenefitsUpTo(db, o, 3);
    assert d3 == CashbackMarkStage(d2, o);
    var d4 := BenefitsUpTo(db, o, 4);
    assert d4 == RewardStage(d3, o);
  }
}
