/** Order pricing: plan discounts, coupons, and the split of what is left between eXu and cash.
    Prices are computed over the reals; Math.round is the floor of the value plus one half. */
module Pricing {
  import opened Domain
  import Rounding

  function Max(a: int, b: int): int { if a < b then b else a }
  function Min(a: int, b: int): int { if a < b then a else b }

  // ----- the split -----

  datatype Split = Split(due: nat, wallet: nat, payable: nat, cashback: nat)

  /** The tail of calculateOrderPricing: from the subtotal and the discounts to the money asked for. */
  function SplitPrice(subtotal: int, couponDiscount: int, referralDiscount: int, useWallet: int): (r: Split)
    ensures r.due == r.wallet + r.payable
    ensures r.due == Max(0, subtotal - couponDiscount - referralDiscount)
  {
    var due := Max(0, subtotal - couponDiscount - referralDiscount);
    var wallet := Min(Max(0, useWallet), due);
    Rounding.RoundDivUnique(0, 100, 0);
    var cashback := Rounding.RoundDiv(due * EXU_CASHBACK_PERCENT, 100);
    Split(due, wallet, Max(0, due - wallet), cashback)
  }

  // ----- rounding to whole thousands -----

  function Round(x: real): int {
    (x + 0.5).Floor
  }

  function RoundToThousands(amount: real): int {
    Round(amount / 1000.0) * 1000
  }

  lemma RoundNear(x: real)
    ensures x - 0.5 < Round(x) as real <= x + 0.5
  {
  }

  lemma RoundMono(x: real, n: int)
    requires x <= n as real
    ensures Round(x) <= n
  {
    RoundNear(x);
  }

  /** Rounding to thousands moves an amount by at most 500, and never past a whole thousand it was not beyond. */
  lemma ThousandsNear(amount: real)
    ensures amount - 500.0 <= RoundToThousands(amount) as real <= amount + 500.0
    ensures RoundToThousands(amount) % 1000 == 0
    ensures forall n: int :: amount <= (1000 * n) as real ==> RoundToThousands(amount) <= 1000 * n
    ensures forall n: int :: (1000 * n) as real <= amount ==> 1000 * n <= RoundToThousands(amount)
  {
    RoundNear(amount / 1000.0);
    forall n: int | amount <= (1000 * n) as real ensures RoundToThousands(amount) <= 1000 * n {
      assert amount / 1000.0 <= n as real;
      RoundMono(amount / 1000.0, n);
    }
  }

  // ----- plan discounts -----

  /** getDiscountedVndPrice; discounts are percentages. */
  function DiscountedPrice(price: int, discount: real): int {
    if discount <= 0.0 then price
    else RoundToThousands(price as real * (1.0 - discount / 100.0))
  }

  function ExactPrice(price: int, discount: real): real {
    price as real * (1.0 - discount / 100.0)
  }

  lemma ExactBounds(price: nat, discount: real)
    requires 0.0 <= discount <= 100.0
    ensures 0.0 <= ExactPrice(price, discount) <= price as real
  {
    var part := 1.0 - discount / 100.0;
    assert 0.0 <= part <= 1.0;
    RealScale(price as real, part);
  }

  lemma RealScale(x: real, part: real)
    requires 0.0 <= x && 0.0 <= part <= 1.0
    ensures 0.0 <= x * part <= x
  {
    RealMono(x, part, 1.0);
  }

  /** Without a discount the price is the list price as it stands; with one it is the only whole thousand that is less
      than 500 below the exact price or at most 500 above it. */
  lemma DiscountedIs(price: int, discount: real)
    ensures discount <= 0.0 ==> DiscountedPrice(price, discount) == price
    ensures 0.0 < discount ==>
              var exact := price as real * (1.0 - discount / 100.0);
              && DiscountedPrice(price, discount) % 1000 == 0
              && exact - 500.0 < DiscountedPrice(price, discount) as real <= exact + 500.0
  {
    RoundNear(price as real * (1.0 - discount / 100.0) / 1000.0);
  }

  /** A discounted whole-thousand price stays between nothing and its list price, in whole thousands, and
      within 500 of the exact discount. */
  lemma DiscountBounds(thousands: nat, discount: real)
    requires 0.0 <= discount <= 100.0
    ensures var price := 1000 * thousands;
            && 0 <= DiscountedPrice(price, discount) <= price
            && DiscountedPrice(price, discount) % 1000 == 0
            && ExactPrice(price, discount) - 500.0 <= DiscountedPrice(price, discount) as real
              <= ExactPrice(price, discount) + 500.0
  {
    var price := 1000 * thousands;
    ExactBounds(price, discount);
    ThousandsNear(ExactPrice(price, discount));
    if 0.0 < discount {
      assert (1000 * 0) as real <= ExactPrice(price, discount);
    }
  }

  /** In general a discount may raise a price: it does not exactly when the exact price stays less than 500 above
      the whole thousands of the list price. */
  lemma DiscountRaisesIff(price: nat, discount: real)
    requires 0.0 < discount <= 100.0
    ensures DiscountedPrice(price, discount) <= price
       <==> ExactPrice(price, discount) < (price / 1000 * 1000 + 500) as real
  {
    var exact := ExactPrice(price, discount);
    var whole := price / 1000;
    var r := Round(exact / 1000.0);
    RoundNear(exact / 1000.0);
    if exact < (whole * 1000 + 500) as real {
      assert exact / 1000.0 + 0.5 < (whole + 1) as real;
      assert r < whole + 1;
    } else {
      assert exact / 1000.0 + 0.5 >= (whole + 1) as real;
      assert r >= whole + 1;
    }
  }

  /** For instance one percent off 1600 costs 2000. */
  lemma DiscountCanRaise()
    ensures DiscountedPrice(1600, 1.0) == 2000
  {
    assert ExactPrice(1600, 1.0) == 1584.0;
    assert Round(1.584) == 2;
  }

  // ----- coupons -----

  /** validateCoupon: the discount in VND, to the hundredth. */
  function CouponAmount(orderAmount: int, percent: real): real {
    Hundredths(Round(Percentage(orderAmount, percent)))
  }

  function Percentage(amount: int, percent: real): real {
    amount as real * percent
  }

  function Hundredths(n: int): real {
    n as real / 100.0
  }

  /** What the order subtracts for the coupon. */
  function CouponDiscount(orderAmount: int, percent: real): int {
    RoundToThousands(CouponAmount(orderAmount, percent))
  }

  lemma RealMono(a: real, b: real, c: real)
    requires 0.0 <= a && 0.0 <= b <= c
    ensures 0.0 <= a * b <= a * c
  {
    assert a * c - a * b == a * (c - b);
  }

  lemma PercentageBounds(amount: nat, percent: real)
    requires 0.0 <= percent <= 100.0
    ensures 0.0 <= Percentage(amount, percent) <= (100 * amount) as real
  {
    RealMono(amount as real, percent, 100.0);
  }

  lemma HundredthsBounds(n: int, amount: nat)
    requires 0 <= n <= 100 * amount
    ensures 0.0 <= Hundredths(n) <= amount as real
  {
  }

  lemma CouponAmountBounds(subtotal: nat, percent: real)
    requires 0.0 <= percent <= 100.0
    ensures 0.0 <= CouponAmount(subtotal, percent) <= subtotal as real
  {
    hide Percentage, Hundredths;
    PercentageBounds(subtotal, percent);
    RoundNear(Percentage(subtotal, percent));
    RoundMono(Percentage(subtotal, percent), 100 * subtotal);
    HundredthsBounds(Round(Percentage(subtotal, percent)), subtotal);
  }

  /** On a whole-thousand subtotal a coupon takes off between nothing and everything. */
  lemma CouponBounds(thousands: nat, percent: real)
    requires 0.0 <= percent <= 100.0
    ensures 0 <= CouponDiscount(1000 * thousands, percent) <= 1000 * thousands
    ensures CouponDiscount(1000 * thousands, percent) % 1000 == 0
  {
    CouponAmountBounds(1000 * thousands, percent);
    ThousandsNear(CouponAmount(1000 * thousands, percent));
    assert (1000 * 0) as real <= CouponAmount(1000 * thousands, percent);
  }

  /** A coupon is its percentage of the subtotal: to the half hundredth as validated, within 500 as the order takes it
      off, in whole thousands. */
  lemma CouponNear(subtotal: int, percent: real)
    ensures var exact := subtotal as real * percent / 100.0;
            && exact - 0.005 < CouponAmount(subtotal, percent) <= exact + 0.005
            && CouponAmount(subtotal, percent) - 500.0 < CouponDiscount(subtotal, percent) as real
               <= CouponAmount(subtotal, percent) + 500.0
            && CouponDiscount(subtotal, percent) % 1000 == 0
  {
    RoundNear(Percentage(subtotal, percent));
    RoundNear(CouponAmount(subtotal, percent) / 1000.0);
  }

  /** On any subtotal the coupon exceeds it exactly when its amount reaches the upper half of the last thousand. */
  lemma CouponExceedsIff(subtotal: nat, percent: real)
    requires 0.0 <= percent <= 100.0
    ensures subtotal < CouponDiscount(subtotal, percent)
       <==> (subtotal / 1000 * 1000 + 500) as real <= CouponAmount(subtotal, percent)
  {
    var amount := CouponAmount(subtotal, percent);
    var whole := subtotal / 1000;
    var r := Round(amount / 1000.0);
    RoundNear(amount / 1000.0);
    if amount < (whole * 1000 + 500) as real {
      assert amount / 1000.0 + 0.5 < (whole + 1) as real;
      assert r < whole + 1;
    } else {
      assert amount / 1000.0 + 0.5 >= (whole + 1) as real;
      assert r >= whole + 1;
    }
  }

  /** A coupon never raises what is due. It takes off its full discount exactly when its amount stays below the upper
      half of the last thousand; from there on it exceeds the subtotal, the maximum with zero clips it, and nothing is
      due. */
  lemma CouponClippedIff(subtotal: nat, percent: real, useWallet: int)
    requires 0.0 <= percent <= 100.0
    ensures var coupon := CouponDiscount(subtotal, percent);
            var due := SplitPrice(subtotal, coupon, 0, useWallet).due;
            && due <= subtotal
            && (due == subtotal - coupon <==> CouponAmount(subtotal, percent) < (subtotal / 1000 * 1000 + 500) as real)
            && (due != subtotal - coupon ==> due == 0)
  {
    CouponExceedsIff(subtotal, percent);
    CouponAmountBounds(subtotal, percent);
    ThousandsNear(CouponAmount(subtotal, percent));
    assert (1000 * 0) as real <= CouponAmount(subtotal, percent);
    hide CouponDiscount, CouponAmount;
  }

  /** For instance the whole of 600 is a coupon of 1000; nothing is due. */
  lemma CouponCanExceed(useWallet: int)
    ensures CouponDiscount(600, 100.0) == 1000
    ensures SplitPrice(600, CouponDiscount(600, 100.0), 0, useWallet).due == 0
  {
    assert Percentage(600, 100.0) == 60000.0;
    assert Round(60000.0) == 60000;
    assert Hundredths(60000) == 600.0;
    assert Round(0.6) == 1;
  }

  // ----- whole carts -----

  datatype Line = Line(vndPrice: int, discount: real, quantity: int)

  function LinePrice(line: Line): int {
    DiscountedPrice(line.vndPrice, line.discount) * line.quantity
  }

  function Subtotal(lines: seq<Line>): int {
    if |lines| == 0 then 0 else Subtotal(lines[..|lines| - 1]) + LinePrice(lines[|lines| - 1])
  }

  function ListTotal(lines: seq<Line>): int {
    if |lines| == 0 then 0
    else ListTotal(lines[..|lines| - 1]) + ListPrice(lines[|lines| - 1])
  }

  function ListPrice(line: Line): int {
    line.vndPrice * line.quantity
  }

  /** A catalogue line: a whole-thousand list price, a percentage, at least one unit. */
  predicate Catalogue(line: Line) {
    0 <= line.vndPrice && line.vndPrice % 1000 == 0 && 0.0 <= line.discount <= 100.0 && 1 <= line.quantity
  }

  lemma MulThousands(a: int, q: nat)
    requires a % 1000 == 0
    ensures a * q % 1000 == 0
  {
    var k := a / 1000;
    assert a * q == 1000 * (k * q);
  }

  lemma LineBounds(line: Line)
    requires Catalogue(line)
    ensures 0 <= LinePrice(line) <= ListPrice(line) && LinePrice(line) % 1000 == 0
  {
    DiscountBounds(line.vndPrice / 1000, line.discount);
    var price := DiscountedPrice(line.vndPrice, line.discount);
    assert 0 <= price <= line.vndPrice && price % 1000 == 0;
    hide DiscountedPrice;
    MulThousands(price, line.quantity);
    Rounding.MulMono(line.quantity, 0, price);
    Rounding.MulMono(line.quantity, price, line.vndPrice);
  }

  lemma AddThousands(a: int, b: int)
    requires a % 1000 == 0 && b % 1000 == 0
    ensures (a + b) % 1000 == 0
  {
  }

  lemma {:induction false} SubtotalBounds(lines: seq<Line>)
    requires forall i :: 0 <= i < |lines| ==> Catalogue(lines[i])
    ensures 0 <= Subtotal(lines) <= ListTotal(lines) && Subtotal(lines) % 1000 == 0
  {
    if |lines| > 0 {
      hide LinePrice, ListPrice, Catalogue;
      SubtotalBounds(lines[..|lines| - 1]);
      LineBounds(lines[|lines| - 1]);
      AddThousands(Subtotal(lines[..|lines| - 1]), LinePrice(lines[|lines| - 1]));
    }
  }

  /** For every catalogue cart and coupon: the coupon never exceeds the subtotal, so nothing is clipped; what is due
      is split without loss between wallet and cash, and the wallet never pays more than was asked for. */
  lemma CartSplit(lines: seq<Line>, percent: Option<real>, useWallet: int)
    requires forall i :: 0 <= i < |lines| ==> Catalogue(lines[i])
    requires percent.Some? ==> 0.0 <= percent.value <= 100.0
    ensures var subtotal := Subtotal(lines);
            var coupon := if percent.Some? then CouponDiscount(subtotal, percent.value) else 0;
            var split := SplitPrice(subtotal, coupon, 0, useWallet);
            && split.due == subtotal - coupon == split.wallet + split.payable
            && split.due <= ListTotal(lines)
            && split.wallet <= Max(0, useWallet)
            && (split.payable == 0 <==> split.due <= Max(0, useWallet))
  {
    SubtotalBounds(lines);
    if percent.Some? {
      CouponBounds(Subtotal(lines) / 1000, percent.value);
    }
  }

  /** With an accepted referral the subtotal is at least the minimum order, so the discount is never clipped. */
  lemma ReferralSplit(subtotal: int, useWallet: int)
    requires REFERRAL_MIN_ORDER <= subtotal
    ensures var split := SplitPrice(subtotal, 0, REFERRAL_DISCOUNT, useWallet);
            split.due == subtotal - REFERRAL_DISCOUNT == split.wallet + split.payable && 0 < split.due
  {
  }

  /** The cashback is two percent of what was due, to the nearest unit, so never more than what was due. */
  lemma CashbackBounds(subtotal: int, couponDiscount: int, referralDiscount: int, useWallet: int)
    ensures var split := SplitPrice(subtotal, couponDiscount, referralDiscount, useWallet);
            && 2 * split.due - 50 < 100 * split.cashback <= 2 * split.due + 50
            && split.cashback <= split.due
  {
  }
}
