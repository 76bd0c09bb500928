/** createPendingOrder writes one order item per unit for the two per-unit providers and one per cart line for
    the others. Quantities and prices are conserved; costs are, unless a local plan sits with a per-unit provider. */
module UnitExpansion {
  import opened Domain
  import opened Pricing
  import Rounding

  datatype Provider = Airalo | EsimAccess | GadgetKorea | JapanTravelSim | OtherProvider

  datatype CartLine = CartLine(planId: nat, provider: Provider, isLocal: bool, quantity: int, vndPrice: int,
                               discount: real, costPrice: real)

  datatype Item = Item(planId: nat, quantity: int, vndPrice: int, vndCostPrice: int)

  predicate PerUnit(line: CartLine) {
    line.provider == JapanTravelSim || line.provider == GadgetKorea
  }

  function PriceLine(line: CartLine): Line {
    Line(line.vndPrice, line.discount, line.quantity)
  }

  function PriceLines(lines: seq<CartLine>): seq<Line> {
    seq(|lines|, (i: int) requires 0 <= i < |lines| => PriceLine(lines[i]))
  }

  /** The cost of one unit at the exchange rate, zero without a rate. */
  function RatedCost(line: CartLine, rate: Option<real>): int {
    if rate.Some? then Round(line.costPrice * rate.value) else 0
  }

  /** The cost of one unit in the order's total: local plans are already priced in VND. */
  function UnitCost(line: CartLine, rate: Option<real>): int {
    if line.isLocal then Round(line.costPrice) else RatedCost(line, rate)
  }

  /** vndCostPrice of the order. */
  function TotalCost(lines: seq<CartLine>, rate: Option<real>): int {
    if |lines| == 0 then 0
    else TotalCost(lines[..|lines| - 1], rate) + UnitCost(lines[|lines| - 1], rate) * lines[|lines| - 1].quantity
  }

  function TotalQuantity(lines: seq<CartLine>): int {
    if |lines| == 0 then 0
    else TotalQuantity(lines[..|lines| - 1]) + lines[|lines| - 1].quantity
  }

  // ----- sums over items -----

  datatype Sums = Sums(quantity: int, price: int, cost: int) {
    function Add(item: Item): Sums {
      Sums(quantity + item.quantity, price + item.vndPrice, cost + item.vndCostPrice)
    }
  }

  function SumItems(items: seq<Item>): Sums {
    if |items| == 0 then Sums(0, 0, 0) else SumItems(items[..|items| - 1]).Add(items[|items| - 1])
  }

  lemma SumAppend(items: seq<Item>, item: Item)
    ensures SumItems(items + [item]) == SumItems(items).Add(item)
  {
    assert (items + [item])[..|items|] == items;
  }

  /** What one line adds to the item sums. */
  function LineSums(line: CartLine, rate: Option<real>): Sums {
    var price := DiscountedPrice(line.vndPrice, line.discount);
    if PerUnit(line) then
      var count := Max(1, line.quantity);
      Sums(count, count * price, count * RatedCost(line, rate))
    else
      Sums(line.quantity, price * line.quantity, UnitCost(line, rate) * line.quantity)
  }

  /** The order's cost prices a local plan in VND, while an expanded item always converts from USD: on a local plan of a
      per-unit provider the two agree only if the conversion happens to give the same figure. */
  predicate CostKept(line: CartLine, rate: Option<real>) {
    PerUnit(line) && line.isLocal ==> RatedCost(line, rate) == Round(line.costPrice)
  }

  /** An expanded line has at least one item, so a line keeps its quantity exactly if it orders at least one unit or is
      not expanded; then it keeps its price, and its cost exactly if CostKept. */
  lemma LineConserved(line: CartLine, rate: Option<real>)
    ensures LineSums(line, rate).quantity == line.quantity <==> (PerUnit(line) ==> 1 <= line.quantity)
    ensures (PerUnit(line) ==> 1 <= line.quantity) ==> LineSums(line, rate).price == LinePrice(PriceLine(line))
    ensures 1 <= line.quantity ==>
            (LineSums(line, rate).cost == UnitCost(line, rate) * line.quantity <==> CostKept(line, rate))
    ensures 1 <= line.quantity ==>
            LineSums(line, rate).cost == UnitCost(line, rate) * line.quantity + CostGap(line, rate)
  {
    hide RatedCost, Round, DiscountedPrice;
    GapIsZeroIff(line.quantity, RatedCost(line, rate), Round(line.costPrice));
  }

  /** What the items of a line cost beyond what the line costs the order. */
  function CostGap(line: CartLine, rate: Option<real>): int {
    if PerUnit(line) && line.isLocal
    then line.quantity * RatedCost(line, rate) - line.quantity * Round(line.costPrice)
    else 0
  }

  function TotalGap(lines: seq<CartLine>, rate: Option<real>): int {
    if |lines| == 0 then 0
    else TotalGap(lines[..|lines| - 1], rate) + CostGap(lines[|lines| - 1], rate)
  }

  lemma GapIsZeroIff(q: int, a: int, b: int)
    ensures 1 <= q ==> (q * a - q * b == 0 <==> a == b)
  {
    assert q * a - q * b == q * (a - b);
  }

  /** For instance a local plan of a per-unit provider, placed without an exchange rate, costs the order but not its
      items. */
  lemma CostCanBeLost(line: CartLine)
    requires line.provider == GadgetKorea && line.isLocal && line.quantity == 1 && line.costPrice == 5000.0
    ensures UnitCost(line, None) == 5000 && LineSums(line, None).cost == 0
  {
  }

  function ExpectedSums(lines: seq<CartLine>, rate: Option<real>): Sums {
    if |lines| == 0 then Sums(0, 0, 0)
    else
      var before := ExpectedSums(lines[..|lines| - 1], rate);
      var line := LineSums(lines[|lines| - 1], rate);
      Sums(before.quantity + line.quantity, before.price + line.price, before.cost + line.cost)
  }

  predicate ItemOf(item: Item, line: CartLine, rate: Option<real>) {
    var price := DiscountedPrice(line.vndPrice, line.discount);
    item == if PerUnit(line) then Item(line.planId, 1, price, RatedCost(line, rate))
            else Item(line.planId, line.quantity, price * line.quantity, UnitCost(line, rate) * line.quantity)
  }

  /** The items of one line: one per unit, or one for the line. */
  method CreateLineItems(line: CartLine, rate: Option<real>) returns (items: seq<Item>)
    ensures SumItems(items) == LineSums(line, rate)
    ensures |items| == (if PerUnit(line) then Max(1, line.quantity) else 1)
    ensures forall i :: 0 <= i < |items| ==> ItemOf(items[i], line, rate)
  {
    var price := DiscountedPrice(line.vndPrice, line.discount);
    items := [];
    if PerUnit(line) {
      hide DiscountedPrice, RatedCost, UnitCost;
      var cost := RatedCost(line, rate);
      var item := Item(line.planId, 1, price, cost);
      for u := 0 to Max(1, line.quantity)
        invariant |items| == u && SumItems(items) == Sums(u, u * price, u * cost)
        invariant forall i :: 0 <= i < u ==> items[i] == item
      {
        SumAppend(items, item);
        Distribute(u, price);
        Distribute(u, cost);
        items := items + [item];
      }
    } else {
      var item := Item(line.planId, line.quantity, price * line.quantity, UnitCost(line, rate) * line.quantity);
      SumAppend([], item);
      assert [] + [item] == [item];
      items := [item];
    }
  }

  /** Gadget Korea and JapanTravelSim items are single units at the unit price, converted from USD whatever the plan;
      all other items are whole lines, a local plan's cost being VND already. Without an exchange rate nothing is
      converted. */
  lemma ItemIs(item: Item, line: CartLine, rate: Option<real>)
    requires ItemOf(item, line, rate)
    ensures var price := DiscountedPrice(line.vndPrice, line.discount);
            var converted := if rate.Some? then Round(line.costPrice * rate.value) else 0;
            && item.planId == line.planId
            && (line.provider in {GadgetKorea, JapanTravelSim} ==>
                  item.quantity == 1 && item.vndPrice == price && item.vndCostPrice == converted)
            && (line.provider !in {GadgetKorea, JapanTravelSim} ==>
                  && item.quantity == line.quantity && item.vndPrice == price * line.quantity
                  && (line.isLocal ==> item.vndCostPrice == Round(line.costPrice) * line.quantity)
                  && (!line.isLocal ==> item.vndCostPrice == converted * line.quantity))
  {
    var converted := if rate.Some? then Round(line.costPrice * rate.value) else 0;
    assert RatedCost(line, rate) == converted;
    assert !line.isLocal ==> UnitCost(line, rate) == converted;
    hide RatedCost, UnitCost, Round, DiscountedPrice;
  }

  lemma {:induction false} SumConcat(items: seq<Item>, more: seq<Item>)
    ensures var a, b := SumItems(items), SumItems(more);
            SumItems(items + more) == Sums(a.quantity + b.quantity, a.price + b.price, a.cost + b.cost)
  {
    if |more| == 0 {
      assert items + more == items;
    } else {
      var last := |more| - 1;
      assert (items + more)[..|items| + last] == items + more[..last];
      SumConcat(items, more[..last]);
    }
  }

  ghost predicate OfSomeLine(item: Item, lines: seq<CartLine>, rate: Option<real>) {
    exists j :: 0 <= j < |lines| && ItemOf(item, lines[j], rate)
  }

  /** The item loop. */
  method CreateItems(lines: seq<CartLine>, rate: Option<real>) returns (items: seq<Item>)
    ensures SumItems(items) == ExpectedSums(lines, rate)
    ensures forall i :: 0 <= i < |items| ==> OfSomeLine(items[i], lines, rate)
  {
    items := [];
    hide ItemOf, LineSums;
    for n := 0 to |lines|
      invariant SumItems(items) == ExpectedSums(lines[..n], rate)
      invariant forall i :: 0 <= i < |items| ==> OfSomeLine(items[i], lines, rate)
    {
      var more := CreateLineItems(lines[n], rate);
      assert lines[..n + 1][..n] == lines[..n];
      SumConcat(items, more);
      items := items + more;
    }
    assert lines[..|lines|] == lines;
  }

  lemma Distribute(u: int, price: int)
    ensures (u + 1) * price == u * price + price
  {
  }

  /** Whatever the mix of expanded and plain lines, the items add up to the ordered quantity and to the order's
      subtotal; they miss the order's cost by exactly the gaps of the local lines of per-unit providers, so by nothing
      if there are none. */
  lemma {:induction false} Conserved(lines: seq<CartLine>, rate: Option<real>)
    requires forall i :: 0 <= i < |lines| ==> 1 <= lines[i].quantity
    ensures ExpectedSums(lines, rate).quantity == TotalQuantity(lines)
    ensures ExpectedSums(lines, rate).price == Subtotal(PriceLines(lines))
    ensures ExpectedSums(lines, rate).cost == TotalCost(lines, rate) + TotalGap(lines, rate)
    ensures (forall i :: 0 <= i < |lines| ==> CostKept(lines[i], rate)) ==> TotalGap(lines, rate) == 0
  {
    if |lines| > 0 {
      var last := |lines| - 1;
      Conserved(lines[..last], rate);
      LineConserved(lines[last], rate);
      assert PriceLines(lines)[..last] == PriceLines(lines[..last]);
      hide LineSums, UnitCost, RatedCost, LinePrice, PriceLine;
    }
  }
}
