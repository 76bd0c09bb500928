/** Submitting an order's Gadget Korea items: quantities are added up per option, the topup ids that come back are
    queued per option, and the items take them in turn. Option ids are compared by their lower case. */
module GadgetKorea {
  import opened Domain

  datatype Item = Item(option: string, quantity: int)
  /** An absent field reads as the empty string. */
  datatype Product = Product(topupId: string, optionId: string)

  // ----- the request -----

  function QuantityOf(lower: string -> string, items: seq<Item>, key: string): int {
    if |items| == 0 then 0
    else
      var last := items[|items| - 1];
      QuantityOf(lower, items[..|items| - 1], key) + if lower(last.option) == key then last.quantity else 0
  }

  function ItemsOf(lower: string -> string, items: seq<Item>, key: string): nat {
    if |items| == 0 then 0
    else
      var last := items[|items| - 1];
      ItemsOf(lower, items[..|items| - 1], key) + if lower(last.option) == key then 1 else 0
  }

  function Get(m: map<string, int>, key: string): int {
    if key in m then m[key] else 0
  }

  /** One product per option in the request, with the sum of its items' quantities. */
  method AggregateQuantities(lower: string -> string, items: seq<Item>) returns (quantities: map<string, int>)
    ensures forall key :: Get(quantities, key) == QuantityOf(lower, items, key)
    ensures forall key :: key in quantities <==> 0 < ItemsOf(lower, items, key)
  {
    quantities := map[];
    var i := 0;
    while i < |items|
      invariant i <= |items|
      invariant forall key :: Get(quantities, key) == QuantityOf(lower, items[..i], key)
      invariant forall key :: key in quantities <==> 0 < ItemsOf(lower, items[..i], key)
    {
      var key := lower(items[i].option);
      assert items[..i + 1][..i] == items[..i];
      quantities := quantities[key := Get(quantities, key) + items[i].quantity];
      i := i + 1;
    }
    assert items[..i] == items;
  }

  /** What is asked for per option: nothing to begin with, and every item adds its quantity to its own option only. */
  lemma QuantityAdds(lower: string -> string, items: seq<Item>, item: Item, key: string)
    ensures QuantityOf(lower, [], key) == 0
    ensures QuantityOf(lower, items + [item], key)
         == QuantityOf(lower, items, key) + if lower(item.option) == key then item.quantity else 0
  {
    assert (items + [item])[..|items|] == items;
  }

  // ----- the response -----

  /** The topup ids returned for an option, in the order of the response. */
  function IdsFor(lower: string -> string, products: seq<Product>, key: string): seq<string> {
    if |products| == 0 then []
    else
      var last := products[|products| - 1];
      IdsFor(lower, products[..|products| - 1], key)
      + if last.topupId != "" && last.optionId != "" && lower(last.optionId) == key then [last.topupId] else []
  }

  function Nth(ids: seq<string>, n: nat): Option<string> {
    if n < |ids| then Some(ids[n]) else None
  }

  /** The specification: the n-th item of an option gets the n-th id returned for it. */
  function TopupOf(lower: string -> string, items: seq<Item>, products: seq<Product>, k: nat): Option<string>
    requires k < |items|
  {
    var key := lower(items[k].option);
    Nth(IdsFor(lower, products, key), ItemsOf(lower, items[..k], key))
  }

  function QueueOf(queues: map<string, seq<string>>, key: string): seq<string> {
    if key in queues then queues[key] else []
  }

  method FillQueues(lower: string -> string, products: seq<Product>) returns (queues: map<string, seq<string>>)
    ensures forall key :: QueueOf(queues, key) == IdsFor(lower, products, key)
  {
    queues := map[];
    var i := 0;
    while i < |products|
      invariant i <= |products|
      invariant forall key :: QueueOf(queues, key) == IdsFor(lower, products[..i], key)
    {
      var p := products[i];
      assert products[..i + 1][..i] == products[..i];
      if p.topupId != "" && p.optionId != "" {
        var key := lower(p.optionId);
        queues := queues[key := QueueOf(queues, key) + [p.topupId]];
      }
      i := i + 1;
    }
    assert products[..i] == products;
  }

  function Drop(ids: seq<string>, n: nat): seq<string> {
    if n < |ids| then ids[n..] else []
  }

  /** Every queue has lost one id for each of the first k items of its option. */
  ghost predicate Queued(lower: string -> string, queues: map<string, seq<string>>, products: seq<Product>,
                         items: seq<Item>, k: nat)
    requires k <= |items|
  {
    forall key :: QueueOf(queues, key) == Drop(IdsFor(lower, products, key), ItemsOf(lower, items[..k], key))
  }

  /** The first items have their ids. */
  predicate Given(lower: string -> string, items: seq<Item>, products: seq<Product>, topups: seq<Option<string>>) {
    |topups| <= |items| && forall k :: 0 <= k < |topups| ==> topups[k] == TopupOf(lower, items, products, k)
  }

  /** The Gadget Korea part of submitProviders after the call; a failed call reads as no products. */
  method AssignTopups(lower: string -> string, items: seq<Item>, products: seq<Product>)
      returns (topups: seq<Option<string>>)
    ensures |topups| == |items| && Given(lower, items, products, topups)
  {
    var queues := FillQueues(lower, products);
    FreshQueues(lower, queues, products, items);
    topups := [];
    hide *;
    var k := 0;
    while k < |items|
      invariant k == |topups| <= |items| && Queued(lower, queues, products, items, k)
                && Given(lower, items, products, topups)
    {
      var topup, rest := TakeNext(queues, lower(items[k].option));
      TakeNextKeeps(lower, queues, rest, topup, products, items, k);
      GivenNext(lower, items, products, topups, topup);
      topups, queues := topups + [topup], rest;
      k := k + 1;
    }
  }

  lemma FreshQueues(lower: string -> string, queues: map<string, seq<string>>, products: seq<Product>, items: seq<Item>)
    requires forall key :: QueueOf(queues, key) == IdsFor(lower, products, key)
    ensures Queued(lower, queues, products, items, 0) && Given(lower, items, products, [])
  {
  }

  lemma GivenNext(lower: string -> string, items: seq<Item>, products: seq<Product>, topups: seq<Option<string>>,
                  topup: Option<string>)
    requires Given(lower, items, products, topups) && |topups| < |items|
             && topup == TopupOf(lower, items, products, |topups|)
    ensures Given(lower, items, products, topups + [topup])
  {
  }

  lemma TakeNextKeeps(lower: string -> string, queues: map<string, seq<string>>, rest: map<string, seq<string>>,
                      topup: Option<string>, products: seq<Product>, items: seq<Item>, k: nat)
    requires k < |items| && Queued(lower, queues, products, items, k)
    requires Taken(queues, lower(items[k].option), topup, rest)
    ensures Queued(lower, rest, products, items, k + 1) && topup == TopupOf(lower, items, products, k)
  {
    var key := lower(items[k].option);
    DropNext(IdsFor(lower, products, key), ItemsOf(lower, items[..k], key));
    hide IdsFor, QueueOf, Drop, Nth;
    forall other ensures QueueOf(rest, other)
           == Drop(IdsFor(lower, products, other), ItemsOf(lower, items[..k + 1], other)) {
      RankNext(lower, items, k, other);
    }
  }

  ghost predicate Taken(queues: map<string, seq<string>>, key: string, topup: Option<string>,
                        rest: map<string, seq<string>>) {
    && topup == Nth(QueueOf(queues, key), 0)
    && forall other :: QueueOf(rest, other) == if other == key then Drop(QueueOf(queues, key), 1)
      else QueueOf(queues, other)
  }

  /** queue.shift() ?? null */
  method TakeNext(queues: map<string, seq<string>>, key: string)
      returns (topup: Option<string>, rest: map<string, seq<string>>)
    ensures Taken(queues, key, topup, rest)
  {
    var queue := QueueOf(queues, key);
    if |queue| > 0 {
      topup, rest := Some(queue[0]), queues[key := queue[1..]];
    } else {
      topup, rest := None, queues;
    }
  }

  lemma DropNext(ids: seq<string>, n: nat)
    ensures Drop(Drop(ids, n), 1) == Drop(ids, n + 1) && Nth(Drop(ids, n), 0) == Nth(ids, n)
  {
  }

  lemma RankNext(lower: string -> string, items: seq<Item>, k: nat, key: string)
    requires k < |items|
    ensures ItemsOf(lower, items[..k + 1], key) == ItemsOf(lower, items[..k], key) + if lower(items[k].option) == key
            then 1 else 0
  {
    assert items[..k + 1][..k] == items[..k];
  }

  // ----- what the specification guarantees -----

  /** No topup id is returned twice. */
  predicate DistinctTopups(products: seq<Product>) {
    forall i, j :: 0 <= i < j < |products| && products[i].topupId != "" ==> products[i].topupId != products[j].topupId
  }

  /** An id queued for an option stands in a product of that option; ids queued at two places stand in two products. */
  lemma {:induction false} IdsFrom(lower: string -> string, products: seq<Product>, key: string, n: nat)
      returns (at: nat)
    requires n < |IdsFor(lower, products, key)|
    ensures at < |products| && products[at].topupId == IdsFor(lower, products, key)[n] != ""
    ensures products[at].optionId != "" && lower(products[at].optionId) == key
    ensures n == |IdsFor(lower, products[..at], key)|
  {
    var last := |products| - 1;
    if n < |IdsFor(lower, products[..last], key)| {
      at := IdsFrom(lower, products[..last], key, n);
      assert products[..last][..at] == products[..at];
    } else {
      at := last;
    }
  }

  /** A product that has both ids and, in lower case, the option. */
  predicate Offers(lower: string -> string, product: Product, key: string) {
    product.topupId != "" && product.optionId != "" && lower(product.optionId) == key
  }

  /** The ids queued for an option are those of exactly the products that offer it, in their order: every such
      product's id stands behind as many ids as products before it offer the option. */
  lemma {:induction false} IdsComplete(lower: string -> string, products: seq<Product>, key: string, at: nat)
    requires at < |products| && Offers(lower, products[at], key)
    ensures var rank := |IdsFor(lower, products[..at], key)|;
            rank < |IdsFor(lower, products, key)| && IdsFor(lower, products, key)[rank] == products[at].topupId
    ensures |IdsFor(lower, products[..at + 1], key)| == |IdsFor(lower, products[..at], key)| + 1
  {
    assert products[..at + 1][..at] == products[..at];
    var last := |products| - 1;
    if at < last {
      IdsComplete(lower, products[..last], key, at);
      assert products[..last][..at] == products[..at];
    } else {
      assert products[..at + 1] == products;
    }
  }

  lemma {:induction false} RankGrows(lower: string -> string, items: seq<Item>, i: nat, j: nat, key: string)
    requires i <= j <= |items|
    ensures ItemsOf(lower, items[..i], key) <= ItemsOf(lower, items[..j], key)
    ensures i < j && lower(items[i].option) == key ==> ItemsOf(lower, items[..i], key) < ItemsOf(lower, items[..j], key)
    decreases j
  {
    if i < j {
      RankGrows(lower, items, i, j - 1, key);
      assert items[..j][..j - 1] == items[..j - 1];
    }
  }

  /** Each item gets an id that was returned for its own option. */
  lemma OwnOption(lower: string -> string, items: seq<Item>, products: seq<Product>, k: nat)
    requires k < |items| && TopupOf(lower, items, products, k).Some?
    ensures exists at :: 0 <= at < |products| && products[at].topupId == TopupOf(lower, items, products, k).value
                         && lower(products[at].optionId) == lower(items[k].option)
  {
    var key := lower(items[k].option);
    var at := IdsFrom(lower, products, key, ItemsOf(lower, items[..k], key));
  }

  /** If the ids returned are distinct, no two items share one. */
  lemma NoSharedTopup(lower: string -> string, items: seq<Item>, products: seq<Product>, i: nat, j: nat)
    requires DistinctTopups(products) && i < j < |items|
    requires TopupOf(lower, items, products, i).Some? && TopupOf(lower, items, products, j).Some?
    ensures TopupOf(lower, items, products, i) != TopupOf(lower, items, products, j)
  {
    var ki := lower(items[i].option);
    var kj := lower(items[j].option);
    var ai := IdsFrom(lower, products, ki, ItemsOf(lower, items[..i], ki));
    var aj := IdsFrom(lower, products, kj, ItemsOf(lower, items[..j], kj));
    if ki == kj {
      RankGrows(lower, items, i, j, ki);
    }
    assert ai != aj;
  }

  /** How many items of an option have been served. */
  function Served(lower: string -> string, items: seq<Item>, products: seq<Product>, key: string, n: nat): nat
    requires n <= |items|
  {
    if n == 0 then 0
    else
      Served(lower, items, products, key, n - 1)
      + if lower(items[n - 1].option) == key && TopupOf(lower, items, products, n - 1).Some? then 1 else 0
  }

  /** Per option as many items are served as ids were returned, or as there are items. */
  lemma {:induction false} ServedIsMin(lower: string -> string, items: seq<Item>, products: seq<Product>, key: string,
                                       n: nat)
    requires n <= |items|
    ensures Served(lower, items, products, key, n)
         == var ids, wanted := |IdsFor(lower, products, key)|, ItemsOf(lower, items[..n], key);
            if ids < wanted then ids else wanted
  {
    if n > 0 {
      ServedIsMin(lower, items, products, key, n - 1);
      assert items[..n][..n - 1] == items[..n - 1];
    }
  }

  lemma {:induction false} QuantityCoversItems(lower: string -> string, items: seq<Item>, key: string)
    requires forall k :: 0 <= k < |items| ==> 1 <= items[k].quantity
    ensures ItemsOf(lower, items, key) <= QuantityOf(lower, items, key)
  {
    if |items| > 0 {
      QuantityCoversItems(lower, items[..|items| - 1], key);
    }
  }

  /** An item goes without exactly when fewer ids came back for its option than items up to and including it, so
      every item is served when the provider returns the quantities it was asked for. */
  lemma ServedIff(lower: string -> string, items: seq<Item>, products: seq<Product>, k: nat)
    requires k < |items|
    ensures TopupOf(lower, items, products, k).Some?
       <==> ItemsOf(lower, items[..k + 1], lower(items[k].option)) <= |IdsFor(lower, products, lower(items[k].option))|
    ensures (forall i :: 0 <= i < |items| ==> 1 <= items[i].quantity)
            && QuantityOf(lower, items, lower(items[k].option)) <= |IdsFor(lower, products, lower(items[k].option))|
            ==> TopupOf(lower, items, products, k).Some?
  {
    var key := lower(items[k].option);
    assert items[..k + 1][..k] == items[..k];
    RankGrows(lower, items, k + 1, |items|, key);
    assert items[..|items|] == items;
    if forall i :: 0 <= i < |items| ==> 1 <= items[i].quantity {
      QuantityCoversItems(lower, items, key);
    }
  }
}
