/** Submitting an order's JapanTravelSim items in batches of ten: every item travels under an id built from its index,
    and the channel ids come back by that id. */
module JapanTravelSim {
  import opened Domain
  import opened Decimals

  const BATCH := 10

  datatype Datum = Datum(orderId: string, channelOrderId: string)
  /** What the provider answers to the batch that starts at an index with these ids; None if the call fails. */
  type Provider = (nat, seq<string>) -> Option<seq<Datum>>

  // ----- the ids -----

  function ItemId(orderNumber: string, k: nat): string {
    orderNumber + "-jts-" + Decimal(k)
  }

  /** The ids of one order tell its items apart. */
  lemma ItemIdInjective(orderNumber: string, i: nat, j: nat)
    ensures ItemId(orderNumber, i) == ItemId(orderNumber, j) <==> i == j
  {
    var prefix := orderNumber + "-jts-";
    if ItemId(orderNumber, i) == ItemId(orderNumber, j) {
      assert Decimal(i) == ItemId(orderNumber, i)[|prefix|..] == ItemId(orderNumber, j)[|prefix|..] == Decimal(j);
      DecimalInjective(i, j);
    }
  }

  // ----- the specification -----

  function Ids(orderNumber: string, from: nat, to: nat): (r: seq<string>)
    requires from <= to
    ensures |r| == to - from && forall k :: 0 <= k < |r| ==> r[k] == ItemId(orderNumber, from + k)
  {
    seq(to - from, (k: int) requires 0 <= k < to - from => ItemId(orderNumber, from + k))
  }

  function BatchEnd(start: nat, n: nat): nat {
    if start + BATCH < n then start + BATCH else n
  }

  /** Everything the provider answered, batch after batch. */
  function Answers(provider: Provider, orderNumber: string, start: nat, n: nat): seq<Datum>
    decreases n - start
  {
    if n <= start then []
    else Answer(provider, orderNumber, start, n) + Answers(provider, orderNumber, start + BATCH, n)
  }

  /** The b-th batch: the items from 10 b on, ten of them unless fewer are left. */
  function Batch(orderNumber: string, b: nat, n: nat): seq<string>
    requires BATCH * b < n
  {
    Ids(orderNumber, BATCH * b, BatchEnd(BATCH * b, n))
  }

  function Answer(provider: Provider, orderNumber: string, start: nat, n: nat): seq<Datum>
    requires start < n
  {
    var reply := provider(start, Ids(orderNumber, start, BatchEnd(start, n)));
    if reply.Some? then reply.value else []
  }

  /** The last channel id answered for an id. */
  function Channel(data: seq<Datum>, id: string): Option<string> {
    if |data| == 0 then None
    else
      var last := data[|data| - 1];
      if last.orderId == id then Some(last.channelOrderId) else Channel(data[..|data| - 1], id)
  }

  function Truthy(s: Option<string>): Option<string> {
    if s == Some("") then None else s
  }

  /** What the items' request ids become, one per item, for a way of looking up answers. */
  function Assignments(data: seq<Datum>, orderNumber: string, n: nat): seq<Option<string>> {
    seq(n, (k: int) requires 0 <= k < n => Truthy(Channel(data, ItemId(orderNumber, k))))
  }

  // ----- the loops -----

  function Lookup(channels: map<string, string>, id: string): Option<string> {
    if id in channels then Some(channels[id]) else None
  }

  method Collect(channels: map<string, string>, data: seq<Datum>, ghost before: seq<Datum>)
      returns (r: map<string, string>)
    requires forall id :: Lookup(channels, id) == Channel(before, id)
    ensures forall id :: Lookup(r, id) == Channel(before + data, id)
  {
    r := channels;
    assert before + data[..0] == before;
    var i := 0;
    while i < |data|
      invariant i <= |data| && forall id :: Lookup(r, id) == Channel(before + data[..i], id)
    {
      assert (before + data[..i + 1])[..|before| + i] == before + data[..i];
      r := r[data[i].orderId := data[i].channelOrderId];
      i := i + 1;
    }
    assert data[..i] == data;
  }

  method LookUpAll(channels: map<string, string>, orderNumber: string, n: nat, ghost got: seq<Datum>)
    returns (assignments: seq<Option<string>>)
    requires forall id :: Lookup(channels, id) == Channel(got, id)
    ensures assignments == Assignments(got, orderNumber, n)
  {
    var k := 0;
    assignments := [];
    while k < n
      invariant k == |assignments| <= n
      invariant forall j :: 0 <= j < k ==> assignments[j] == Truthy(Channel(got, ItemId(orderNumber, j)))
    {
      var channel := Lookup(channels, ItemId(orderNumber, k));
      assignments := assignments + [if channel == Some("") then None else channel];
      k := k + 1;
    }
  }

  /** The JapanTravelSim part of submitProviders over n items: the ids sent, batch by batch, and the request id each
      item ends with. */
  method Submit(provider: Provider, orderNumber: string, n: nat)
      returns (sent: seq<seq<string>>, assignments: seq<Option<string>>)
    ensures Partition(sent, orderNumber, n)
    ensures assignments == Assignments(Answers(provider, orderNumber, 0, n), orderNumber, n)
  {
    var channels: map<string, string> := map[];
    sent := [];
    ghost var got: seq<Datum> := [];
    var i := 0;
    while i < n
      invariant i == BATCH * |sent| && i < n + BATCH && AllSent(sent, orderNumber, n)
      invariant forall id :: Lookup(channels, id) == Channel(got, id)
      invariant got + Answers(provider, orderNumber, i, n) == Answers(provider, orderNumber, 0, n)
    {
      hide Channel, ItemId, Lookup, Answers, AllSent;
      var batch := Ids(orderNumber, i, BatchEnd(i, n));
      SentNext(sent, orderNumber, n, batch);
      var reply := provider(i, batch);
      ghost var answer := Answer(provider, orderNumber, i, n);
      AnswersNext(provider, orderNumber, i, n, got);
      if reply.Some? {
        channels := Collect(channels, reply.value, got);
      } else {
        assert got + answer == got;
      }
      sent := sent + [batch];
      got := got + answer;
      i := i + BATCH;
    }
    assert got + [] == got;
    assignments := LookUpAll(channels, orderNumber, n, got);
  }

  /** The batches sent so far are the first ones. */
  predicate AllSent(sent: seq<seq<string>>, orderNumber: string, n: nat) {
    forall b :: 0 <= b < |sent| ==> BATCH * b < n && sent[b] == Batch(orderNumber, b, n)
  }

  lemma SentNext(sent: seq<seq<string>>, orderNumber: string, n: nat, batch: seq<string>)
    requires AllSent(sent, orderNumber, n) && BATCH * |sent| < n && batch == Batch(orderNumber, |sent|, n)
    ensures AllSent(sent + [batch], orderNumber, n)
  {
    hide Batch;
  }

  lemma AnswersNext(provider: Provider, orderNumber: string, start: nat, n: nat, got: seq<Datum>)
    requires start < n
    ensures got + Answers(provider, orderNumber, start, n)
         == got + Answer(provider, orderNumber, start, n) + Answers(provider, orderNumber, start + BATCH, n)
  {
  }

  // ----- the batches -----

  /** The batches sent are those that it takes to cover n items. */
  predicate Partition(sent: seq<seq<string>>, orderNumber: string, n: nat) {
    && BATCH * |sent| < n + BATCH && n <= BATCH * |sent|
    && AllSent(sent, orderNumber, n)
  }

  function Flatten(batches: seq<seq<string>>): seq<string> {
    if |batches| == 0 then [] else Flatten(batches[..|batches| - 1]) + batches[|batches| - 1]
  }

  lemma {:induction false} FlattenPrefix(sent: seq<seq<string>>, orderNumber: string, n: nat, b: nat)
    requires Partition(sent, orderNumber, n) && b <= |sent|
    ensures Flatten(sent[..b]) == Ids(orderNumber, 0, if BATCH * b < n then BATCH * b else n)
  {
    if b > 0 {
      FlattenPrefix(sent, orderNumber, n, b - 1);
      assert sent[..b][..b - 1] == sent[..b - 1];
    }
  }

  /** Put end to end the batches are the ids of all items in order; none is empty, and all but the
      last have exactly ten. */
  lemma BatchesPartition(sent: seq<seq<string>>, orderNumber: string, n: nat)
    requires Partition(sent, orderNumber, n)
    ensures Flatten(sent) == Ids(orderNumber, 0, n)
    ensures forall b :: 0 <= b < |sent| ==> 1 <= |sent[b]| <= 10 && (b < |sent| - 1 ==> |sent[b]| == 10)
  {
    FlattenPrefix(sent, orderNumber, n, |sent|);
    assert sent[..|sent|] == sent;
  }

  // ----- looking up an answer -----

  /** The last datum of an id is at i. */
  predicate LastAt(data: seq<Datum>, id: string, i: nat) {
    i < |data| && data[i].orderId == id && forall j :: i < j < |data| ==> data[j].orderId != id
  }

  /** An id's channel is the channel id of its last datum, and there is none exactly if no datum has the id. */
  lemma {:induction false} ChannelIs(data: seq<Datum>, id: string)
    ensures Channel(data, id).None? <==> forall i :: 0 <= i < |data| ==> data[i].orderId != id
    ensures forall i: nat :: LastAt(data, id, i) ==> Channel(data, id) == Some(data[i].channelOrderId)
    ensures Channel(data, id).Some? ==> exists i: nat :: LastAt(data, id, i)
  {
    if |data| > 0 {
      var last := |data| - 1;
      ChannelIs(data[..last], id);
      if data[last].orderId == id {
        assert LastAt(data, id, last);
      } else {
        forall i: nat ensures LastAt(data, id, i) <==> LastAt(data[..last], id, i) {
          assert forall j :: 0 <= j < last ==> data[..last][j] == data[j];
        }
      }
    }
  }

  /** An item's request id is the channel id of the last datum with its own id, unless that is empty; and an item
      without such a datum gets none. */
  lemma AssignmentIs(data: seq<Datum>, orderNumber: string, n: nat, k: nat)
    requires k < n
    ensures var id, got := ItemId(orderNumber, k), Assignments(data, orderNumber, n)[k];
            && (forall i: nat :: LastAt(data, id, i) ==>
                  got == if data[i].channelOrderId == "" then None else Some(data[i].channelOrderId))
            && ((forall i :: 0 <= i < |data| ==> data[i].orderId != id) ==> got == None)
  {
    ChannelIs(data, ItemId(orderNumber, k));
  }

  // ----- batched refines unbatched -----

  /** The provider answers only for ids it was sent in that call. */
  ghost predicate Honest(provider: Provider) {
    forall start, ids :: var reply := provider(start, ids);
      reply.Some? ==> forall i :: 0 <= i < |reply.value| ==> reply.value[i].orderId in ids
  }

  lemma {:induction false} ChannelConcat(a: seq<Datum>, b: seq<Datum>, id: string)
    ensures Channel(a + b, id) == if Channel(b, id).Some? then Channel(b, id) else Channel(a, id)
  {
    if |b| == 0 {
      assert a + b == a;
    } else {
      assert (a + b)[..|a| + |b| - 1] == a + b[..|b| - 1];
      ChannelConcat(a, b[..|b| - 1], id);
    }
  }

  lemma {:induction false} ChannelAbsent(data: seq<Datum>, id: string)
    requires forall i :: 0 <= i < |data| ==> data[i].orderId != id
    ensures Channel(data, id).None?
  {
    if |data| > 0 {
      ChannelAbsent(data[..|data| - 1], id);
    }
  }

  /** An honest batch says nothing about the items outside it. */
  lemma OtherBatchSilent(provider: Provider, orderNumber: string, start: nat, n: nat, k: nat)
    requires Honest(provider) && start < n && !(start <= k < BatchEnd(start, n))
    ensures Channel(Answer(provider, orderNumber, start, n), ItemId(orderNumber, k)).None?
  {
    var ids := Ids(orderNumber, start, BatchEnd(start, n));
    var data := Answer(provider, orderNumber, start, n);
    forall i | 0 <= i < |data| ensures data[i].orderId != ItemId(orderNumber, k) {
      assert data[i].orderId in ids;
      var m :| 0 <= m < |ids| && ids[m] == data[i].orderId;
      ItemIdInjective(orderNumber, start + m, k);
    }
    ChannelAbsent(data, ItemId(orderNumber, k));
  }

  /** What the b-th batch was answered; nothing beyond the last. */
  function BatchAnswer(provider: Provider, orderNumber: string, n: nat, b: nat): seq<Datum> {
    if BATCH * b < n then Answer(provider, orderNumber, BATCH * b, n) else []
  }

  /** What the batches from the m-th on were answered. */
  function From(provider: Provider, orderNumber: string, n: nat, m: nat): seq<Datum> {
    Answers(provider, orderNumber, BATCH * m, n)
  }

  lemma FromBatchOn(provider: Provider, orderNumber: string, n: nat, m: nat, id: string)
    ensures n <= BATCH * m ==> Channel(From(provider, orderNumber, n, m), id).None?
                               && Channel(BatchAnswer(provider, orderNumber, n, m), id).None?
    ensures BATCH * m < n ==>
              var later := Channel(From(provider, orderNumber, n, m + 1), id);
              Channel(From(provider, orderNumber, n, m), id)
              == if later.Some? then later else Channel(BatchAnswer(provider, orderNumber, n, m), id)
  {
    var start := BATCH * m;
    assert BATCH * (m + 1) == start + BATCH;
    if start < n {
      ChannelConcat(Answer(provider, orderNumber, start, n), Answers(provider, orderNumber, start + BATCH, n), id);
    }
  }

  /** The b-th batch is sent, and its answer says something about an id. */
  predicate Named(provider: Provider, orderNumber: string, n: nat, b: nat, id: string) {
    Channel(BatchAnswer(provider, orderNumber, n, b), id).Some?
  }

  /** The b-th batch is the last one that does. */
  ghost predicate LastNamed(provider: Provider, orderNumber: string, n: nat, b: nat, id: string) {
    Named(provider, orderNumber, n, b, id) && forall c: nat :: b < c ==> !Named(provider, orderNumber, n, c, id)
  }

  /** From batch m on, the last batch that names an id decides what it gets. */
  lemma {:induction false} LastBatchDecides(provider: Provider, orderNumber: string, m: nat, n: nat, b: nat, id: string)
    requires m <= b && Named(provider, orderNumber, n, b, id)
    requires forall c: nat :: b < c ==> !Named(provider, orderNumber, n, c, id)
    ensures Channel(From(provider, orderNumber, n, m), id) == Channel(BatchAnswer(provider, orderNumber, n, b), id)
    decreases b - m
  {
    hide Channel, BatchAnswer, From;
    FromBatchOn(provider, orderNumber, n, m, id);
    FromBatchOn(provider, orderNumber, n, b, id);
    if m < b {
      LastBatchDecides(provider, orderNumber, m + 1, n, b, id);
    } else {
      NoBatchNoChannel(provider, orderNumber, m + 1, n, id);
    }
  }

  lemma {:induction false} NoBatchNoChannel(provider: Provider, orderNumber: string, m: nat, n: nat, id: string)
    requires forall c: nat :: m <= c ==> !Named(provider, orderNumber, n, c, id)
    ensures Channel(From(provider, orderNumber, n, m), id).None?
    decreases n - BATCH * m
  {
    hide Channel, BatchAnswer, From;
    FromBatchOn(provider, orderNumber, n, m, id);
    assert !Named(provider, orderNumber, n, m, id);
    if BATCH * m < n {
      NoBatchNoChannel(provider, orderNumber, m + 1, n, id);
    }
  }

  /** Whatever the provider answers: an item gets what the last batch that names its id says, and none if no batch
      does. */
  lemma ItemGetsTheLast(provider: Provider, orderNumber: string, n: nat, k: nat)
    requires k < n
    ensures var id := ItemId(orderNumber, k);
            var got := Assignments(Answers(provider, orderNumber, 0, n), orderNumber, n)[k];
            && ((forall c: nat :: !Named(provider, orderNumber, n, c, id)) ==> got.None?)
            && (forall b: nat ::
                  LastNamed(provider, orderNumber, n, b, id) ==>
                    got == Truthy(Channel(BatchAnswer(provider, orderNumber, n, b), id)))
  {
    var id := ItemId(orderNumber, k);
    assert From(provider, orderNumber, n, 0) == Answers(provider, orderNumber, 0, n);
    hide Channel, ItemId, BatchAnswer, Answers, Named, From;
    if forall c: nat :: !Named(provider, orderNumber, n, c, id) {
      NoBatchNoChannel(provider, orderNumber, 0, n, id);
    }
    forall b: nat | LastNamed(provider, orderNumber, n, b, id)
      ensures Channel(Answers(provider, orderNumber, 0, n), id) == Channel(BatchAnswer(provider, orderNumber, n, b), id)
    {
      LastBatchDecides(provider, orderNumber, 0, n, b, id);
    }
  }

  /** If no other batch names item k, it gets exactly the channel id that its own batch returned for its own id, and
      none exactly when that batch failed, left it out or answered with an empty id. */
  lemma ItemGetsItsOwn(provider: Provider, orderNumber: string, n: nat, k: nat)
    requires k < n && forall c: nat :: c != k / BATCH ==> !Named(provider, orderNumber, n, c, ItemId(orderNumber, k))
    ensures Channel(Answers(provider, orderNumber, 0, n), ItemId(orderNumber, k))
         == Channel(BatchAnswer(provider, orderNumber, n, k / BATCH), ItemId(orderNumber, k))
    ensures Assignments(Answers(provider, orderNumber, 0, n), orderNumber, n)[k]
         == Truthy(Channel(BatchAnswer(provider, orderNumber, n, k / BATCH), ItemId(orderNumber, k)))
  {
    var id := ItemId(orderNumber, k);
    assert From(provider, orderNumber, n, 0) == Answers(provider, orderNumber, 0, n);
    hide Channel, ItemId, BatchAnswer, Answers, From;
    if Named(provider, orderNumber, n, k / BATCH, id) {
      LastBatchDecides(provider, orderNumber, 0, n, k / BATCH, id);
    } else {
      NoBatchNoChannel(provider, orderNumber, 0, n, id);
    }
  }

  /** A provider that answers only what it was asked never names an item in another batch. */
  lemma HonestNamesOwn(provider: Provider, orderNumber: string, n: nat, k: nat)
    requires Honest(provider) && k < n
    ensures forall c: nat :: c != k / BATCH ==> !Named(provider, orderNumber, n, c, ItemId(orderNumber, k))
  {
    var id := ItemId(orderNumber, k);
    assert Channel([], id).None?;
    hide Channel, ItemId, Answer;
    forall c: nat | c != k / BATCH ensures !Named(provider, orderNumber, n, c, id) {
      if BATCH * c < n {
        OtherBatchSilent(provider, orderNumber, BATCH * c, n, k);
      }
    }
  }

  /** A provider that answers each id on its own terms, whatever it is sent with. */
  ghost predicate PerItem(provider: Provider, answer: string -> Option<string>) {
    forall start, ids :: provider(start, ids).Some? && AnswersEach(provider(start, ids).value, ids, answer)
  }

  ghost predicate AnswersEach(data: seq<Datum>, ids: seq<string>, answer: string -> Option<string>) {
    forall id :: id in ids ==> Channel(data, id) == answer(id)
  }

  /** For a provider that answers item by item, the batches give every item what one single request would have. */
  lemma BatchedIsUnbatched(provider: Provider, answer: string -> Option<string>, orderNumber: string, n: nat)
    requires Honest(provider) && PerItem(provider, answer)
    ensures provider(0, Ids(orderNumber, 0, n)).Some?
    ensures Assignments(Answers(provider, orderNumber, 0, n), orderNumber, n)
         == Assignments(provider(0, Ids(orderNumber, 0, n)).value, orderNumber, n)
  {
    var all := Ids(orderNumber, 0, n);
    forall k | 0 <= k < n
      ensures Channel(Answers(provider, orderNumber, 0, n), ItemId(orderNumber, k))
              == Channel(provider(0, all).value, ItemId(orderNumber, k))
    {
      var b := k / BATCH;
      HonestNamesOwn(provider, orderNumber, n, k);
      ItemGetsItsOwn(provider, orderNumber, n, k);
      var batch := Batch(orderNumber, b, n);
      assert batch[k - BATCH * b] == ItemId(orderNumber, k);
      assert all[k] == ItemId(orderNumber, k);
      hide Channel, Answers, ItemId, Ids;
      assert AnswersEach(provider(BATCH * b, batch).value, batch, answer);
      assert AnswersEach(provider(0, all).value, all, answer);
    }
  }
}
