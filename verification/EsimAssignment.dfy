/** Attaching the eSIMs of one EsimAccess event to the order items they were bought for: each eSIM goes to the first
    item of its package code that still has room. */
module EsimAssignment {
  import opened Domain
  import Pricing

  type ItemId = pos

  datatype Item = Item(id: ItemId, planId: nat, code: Option<string>, quantity: Option<int>)
  /** An eSIM as the provider lists it; an absent ICCID reads as the empty string. */
  datatype Esim = Esim(iccid: string, code: Option<string>)
  datatype Outcome = Skipped | Upserted(item: Option<ItemId>, plan: Option<nat>)

  function Quantity(item: Item): int {
    if item.quantity.Some? then item.quantity.value else 1
  }

  function Room(item: Item): nat {
    if Quantity(item) < 0 then 0 else Quantity(item)
  }

  predicate DistinctIds(items: seq<Item>) {
    forall i, j :: 0 <= i < j < |items| ==> items[i].id != items[j].id
  }

  // ----- the specification: every eSIM's outcome follows from the outcomes before it -----

  function CountOf(outcomes: seq<Outcome>, id: ItemId): nat {
    if |outcomes| == 0 then 0
    else
      var last := outcomes[|outcomes| - 1];
      CountOf(outcomes[..|outcomes| - 1], id) + if last.Upserted? && last.item == Some(id) then 1 else 0
  }

  predicate Open(item: Item, outcomes: seq<Outcome>, code: string) {
    item.code == Some(code) && CountOf(outcomes, item.id) < Quantity(item)
  }

  predicate Usable(esim: Esim) {
    esim.iccid != "" && esim.code.Some? && esim.code.value != ""
  }

  predicate Takes(items: seq<Item>, before: seq<Outcome>, code: string, outcome: Outcome, i: nat) {
    && i < |items| && Open(items[i], before, code)
    && (forall j :: 0 <= j < i ==> !Open(items[j], before, code))
    && outcome == Upserted(Some(items[i].id), Some(items[i].planId))
  }

  predicate NoneOpen(items: seq<Item>, before: seq<Outcome>, code: string) {
    forall j :: 0 <= j < |items| ==> !Open(items[j], before, code)
  }

  ghost predicate Decided(items: seq<Item>, before: seq<Outcome>, esim: Esim, outcome: Outcome) {
    if esim.iccid == "" then outcome == Skipped
    else if !Usable(esim) || NoneOpen(items, before, esim.code.value) then outcome == Upserted(None, None)
    else exists i: nat :: Takes(items, before, esim.code.value, outcome, i)
  }

  ghost predicate Greedy(items: seq<Item>, esims: seq<Esim>, outcomes: seq<Outcome>) {
    && |outcomes| == |esims|
    && forall k :: 0 <= k < |esims| ==> Decided(items, outcomes[..k], esims[k], outcomes[k])
  }

  // ----- the loop of the webhook -----

  ghost predicate Tracks(counts: map<ItemId, nat>, outcomes: seq<Outcome>) {
    forall id: ItemId :: (if id in counts then counts[id] else 0) == CountOf(outcomes, id)
  }

  method FindItem(items: seq<Item>, counts: map<ItemId, nat>, code: string, ghost outcomes: seq<Outcome>)
      returns (found: nat)
    requires Tracks(counts, outcomes)
    ensures found <= |items| && forall j :: 0 <= j < found ==> !Open(items[j], outcomes, code)
    ensures found < |items| ==> Open(items[found], outcomes, code)
  {
    found := 0;
    while found < |items|
      invariant found <= |items| && forall j :: 0 <= j < found ==> !Open(items[j], outcomes, code)
    {
      var id := items[found].id;
      var count := if id in counts then counts[id] else 0;
      assert count == CountOf(outcomes, id);
      if items[found].code == Some(code) && count < Quantity(items[found]) {
        return;
      }
      found := found + 1;
    }
  }

  /** The assignment loop of handleEsimAccessEvent. */
  method AssignEsims(items: seq<Item>, esims: seq<Esim>) returns (outcomes: seq<Outcome>)
    ensures Greedy(items, esims, outcomes)
  {
    outcomes := [];
    var assignedCount: map<ItemId, nat> := map[];
    var k := 0;
    while k < |esims|
      invariant k <= |esims| && Greedy(items, esims[..k], outcomes) && Tracks(assignedCount, outcomes)
    {
      var esim := esims[k];
      var outcome := Skipped;
      if esim.iccid != "" {
        outcome := Upserted(None, None);
        if esim.code.Some? && esim.code.value != "" {
          var found := FindItem(items, assignedCount, esim.code.value, outcomes);
          if found < |items| {
            var item := items[found];
            outcome := Upserted(Some(item.id), Some(item.planId));
            assert Takes(items, outcomes, esim.code.value, outcome, found);
            assignedCount := assignedCount[item.id := (if item.id in assignedCount then assignedCount[item.id] else 0)
                                           + 1];
          }
        }
      }
      GreedyNext(items, esims[..k], outcomes, esim, outcome);
      assert esims[..k + 1] == esims[..k] + [esim];
      outcomes := outcomes + [outcome];
      k := k + 1;
    }
    assert esims[..k] == esims;
  }

  lemma GreedyNext(items: seq<Item>, esims: seq<Esim>, outcomes: seq<Outcome>, esim: Esim, outcome: Outcome)
    requires Greedy(items, esims, outcomes) && Decided(items, outcomes, esim, outcome)
    ensures Greedy(items, esims + [esim], outcomes + [outcome])
    ensures forall id: ItemId :: CountOf(outcomes + [outcome], id)
                              == CountOf(outcomes, id) + if outcome.Upserted? && outcome.item == Some(id) then 1 else 0
  {
    var more := outcomes + [outcome];
    assert more[..|outcomes|] == outcomes;
    forall k | 0 <= k < |more| ensures Decided(items, more[..k], (esims + [esim])[k], more[k]) {
      assert more[..k] == outcomes[..k];
    }
  }

  lemma GreedyPrefix(items: seq<Item>, esims: seq<Esim>, outcomes: seq<Outcome>)
    requires Greedy(items, esims, outcomes) && 0 < |esims|
    ensures var last := |esims| - 1;
            Greedy(items, esims[..last], outcomes[..last])
              && Decided(items, outcomes[..last], esims[last], outcomes[last])
  {
    var last := |esims| - 1;
    forall k | 0 <= k < last ensures Decided(items, outcomes[..last][..k], esims[k], outcomes[k]) {
      assert outcomes[..last][..k] == outcomes[..k];
    }
  }

  // ----- what a greedy assignment guarantees -----

  /** No item holds more eSIMs than its quantity, and an eSIM is attached only to an item and plan of its own package
      code. */
  lemma {:induction false} CapacityAndCode(items: seq<Item>, esims: seq<Esim>, outcomes: seq<Outcome>)
    requires DistinctIds(items) && Greedy(items, esims, outcomes)
    ensures forall i :: 0 <= i < |items| ==> CountOf(outcomes, items[i].id) <= Room(items[i])
    ensures forall k :: 0 <= k < |esims| && outcomes[k].Upserted? && outcomes[k].item.Some? ==>
              exists i :: 0 <= i < |items| && items[i].code == esims[k].code
                          && outcomes[k] == Upserted(Some(items[i].id), Some(items[i].planId))
    decreases |esims|
  {
    if |esims| > 0 {
      var last := |esims| - 1;
      GreedyPrefix(items, esims, outcomes);
      CapacityAndCode(items, esims[..last], outcomes[..last]);
    }
  }

  /** An item takes as many eSIMs as it orders, one if it does not say, none if it orders fewer. */
  lemma RoomIs(item: Item)
    ensures item.quantity == None ==> Room(item) == 1
    ensures item.quantity.Some? && 0 <= item.quantity.value ==> Room(item) == item.quantity.value
    ensures item.quantity.Some? && item.quantity.value < 0 ==> Room(item) == 0
  {
  }

  /** First fit: the item that an eSIM is attached to still has room then, and every item of its code before it is full;
      an eSIM with a code that is attached to none finds all items of its code full, and only one without an ICCID is
      skipped. */
  lemma FirstFit(items: seq<Item>, esims: seq<Esim>, outcomes: seq<Outcome>, k: nat)
    requires Greedy(items, esims, outcomes) && k < |esims|
    ensures outcomes[k].Skipped? <==> esims[k].iccid == ""
    ensures outcomes[k].Upserted? && outcomes[k].item.Some? ==>
              exists i: nat :: i < |items| && FitsAt(items, outcomes[..k], esims[k], i)
                               && outcomes[k] == Upserted(Some(items[i].id), Some(items[i].planId))
    ensures outcomes[k] == Upserted(None, None) && esims[k].code.Some? && esims[k].code.value != "" ==>
              forall j :: 0 <= j < |items| && items[j].code == esims[k].code ==>
                Room(items[j]) <= CountOf(outcomes[..k], items[j].id)
  {
    var before := outcomes[..k];
    assert Decided(items, before, esims[k], outcomes[k]);
    if outcomes[k].Upserted? && outcomes[k].item.Some? {
      var i: nat :| Takes(items, before, esims[k].code.value, outcomes[k], i);
      assert FitsAt(items, before, esims[k], i);
    } else if outcomes[k] == Upserted(None, None) && Usable(esims[k]) {
      forall j | 0 <= j < |items| && items[j].code == esims[k].code
        ensures Room(items[j]) <= CountOf(before, items[j].id)
      {
        assert !Open(items[j], before, esims[k].code.value);
      }
    }
  }

  predicate FitsAt(items: seq<Item>, before: seq<Outcome>, esim: Esim, i: nat)
    requires i < |items|
  {
    && items[i].code == esim.code && CountOf(before, items[i].id) < Room(items[i])
    && forall j :: 0 <= j < i && items[j].code == esim.code ==> Room(items[j]) <= CountOf(before, items[j].id)
  }

  function Candidates(esims: seq<Esim>, code: string): nat {
    if |esims| == 0 then 0
    else
      var last := esims[|esims| - 1];
      Candidates(esims[..|esims| - 1], code) + if last.iccid != "" && last.code == Some(code) then 1 else 0
  }

  function Assigned(esims: seq<Esim>, outcomes: seq<Outcome>, code: string): nat
    requires |esims| == |outcomes|
  {
    if |esims| == 0 then 0
    else
      var last := |esims| - 1;
      Assigned(esims[..last], outcomes[..last], code)
      + if outcomes[last].Upserted? && outcomes[last].item.Some? && esims[last].code == Some(code) then 1 else 0
  }

  function Capacity(items: seq<Item>, code: string): nat {
    if |items| == 0 then 0
    else
      var last := items[|items| - 1];
      Capacity(items[..|items| - 1], code) + if last.code == Some(code) then Room(last) else 0
  }

  function Held(items: seq<Item>, outcomes: seq<Outcome>, code: string): nat {
    if |items| == 0 then 0
    else
      var last := items[|items| - 1];
      Held(items[..|items| - 1], outcomes, code) + if last.code == Some(code) then CountOf(outcomes, last.id) else 0
  }

  ghost predicate Owns(items: seq<Item>, id: ItemId, code: string) {
    exists i :: 0 <= i < |items| && items[i].id == id && items[i].code == Some(code)
  }

  /** One more outcome for item i adds one to the holdings of its code and nothing to any other. */
  lemma {:induction false} HeldNext(items: seq<Item>, outcomes: seq<Outcome>, outcome: Outcome, code: string)
    requires DistinctIds(items) && outcome.Upserted? && outcome.item.Some?
    ensures var more := Held(items, outcomes + [outcome], code);
            more == Held(items, outcomes, code)
                    + if Owns(items, outcome.item.value, code) then 1 else 0
  {
    if |items| > 0 {
      var last := |items| - 1;
      HeldNext(items[..last], outcomes, outcome, code);
      assert (outcomes + [outcome])[..|outcomes|] == outcomes;
      if i :| 0 <= i < last && items[i].id == outcome.item.value && items[i].code == Some(code) {
        assert items[..last][i] == items[i];
      }
    }
  }

  lemma {:induction false} HeldIdle(items: seq<Item>, outcomes: seq<Outcome>, outcome: Outcome, code: string)
    requires outcome.Upserted? ==> outcome.item.None?
    ensures Held(items, outcomes + [outcome], code) == Held(items, outcomes, code)
  {
    if |items| > 0 {
      HeldIdle(items[..|items| - 1], outcomes, outcome, code);
      assert (outcomes + [outcome])[..|outcomes|] == outcomes;
    }
  }

  lemma {:induction false} HeldWithinCapacity(items: seq<Item>, outcomes: seq<Outcome>, code: string)
    requires forall i :: 0 <= i < |items| ==> CountOf(outcomes, items[i].id) <= Room(items[i])
    ensures Held(items, outcomes, code) <= Capacity(items, code)
    ensures NoneOpen(items, outcomes, code) <==> Held(items, outcomes, code) == Capacity(items, code)
  {
    if |items| > 0 {
      var last := |items| - 1;
      HeldWithinCapacity(items[..last], outcomes, code);
      assert NoneOpen(items, outcomes, code)
             <==> (NoneOpen(items[..last], outcomes, code) && !Open(items[last], outcomes, code)) by {
        assert forall j :: 0 <= j < last ==> items[..last][j] == items[j];
      }
    }
  }

  lemma {:induction false} AssignedIsHeld(items: seq<Item>, esims: seq<Esim>, outcomes: seq<Outcome>, code: string)
    requires DistinctIds(items) && Greedy(items, esims, outcomes)
    ensures Assigned(esims, outcomes, code) == Held(items, outcomes, code)
    decreases |esims|
  {
    if |esims| == 0 {
      NothingHeld(items, code);
    } else {
      var last := |esims| - 1;
      GreedyPrefix(items, esims, outcomes);
      AssignedIsHeld(items, esims[..last], outcomes[..last], code);
      assert outcomes == outcomes[..last] + [outcomes[last]];
      if outcomes[last].Upserted? && outcomes[last].item.Some? {
        HeldNext(items, outcomes[..last], outcomes[last], code);
      } else {
        HeldIdle(items, outcomes[..last], outcomes[last], code);
      }
    }
  }

  lemma {:induction false} NothingHeld(items: seq<Item>, code: string)
    ensures Held(items, [], code) == 0
  {
    if |items| > 0 {
      NothingHeld(items[..|items| - 1], code);
    }
  }

  /** Greedy is maximal: for every package code as many eSIMs are attached as there are, or as there is room for. */
  lemma {:induction false} GreedyIsMaximal(items: seq<Item>, esims: seq<Esim>, outcomes: seq<Outcome>, code: string)
    requires DistinctIds(items) && Greedy(items, esims, outcomes) && code != ""
    ensures Assigned(esims, outcomes, code) == Pricing.Min(Candidates(esims, code), Capacity(items, code))
    decreases |esims|
  {
    if |esims| > 0 {
      var last := |esims| - 1;
      var before := outcomes[..last];
      GreedyPrefix(items, esims, outcomes);
      GreedyIsMaximal(items, esims[..last], before, code);
      AssignedIsHeld(items, esims[..last], before, code);
      CapacityAndCode(items, esims[..last], before);
      HeldWithinCapacity(items, before, code);
    }
  }
}
