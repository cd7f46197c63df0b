/**
 The two ways an answer becomes a batch: the NF-e and CT-e distributions (internal/sync/dist.go), which
 trust the order of the authority, and the NFS-e one (internal/sync/source_nfse.go), which sorts. For
 each: exactly which answers are honest in the sense of PullProtocol.
 */
module PullSources {
  import opened Wrappers
  import opened PullProtocol
  import RequestGate

  type Time = RequestGate.Time

  datatype StopReason =
    | EmptyLimit
    | CaughtUp
    | ConsumoIndevido
    | RateBudget
    | ContextCanceled
    | FetchFailed
    | ProcessFailed

  /** A batch with what the loop records about the source. */
  datatype SourceBatch = SourceBatch(batch: Batch, maxNsu: Nsu, stopReason: Option<StopReason>, waitUntil: Option<Time>)

  datatype Doc = Doc(nsu: Nsu, schema: string)

  // ----- NF-e and CT-e -----

  const LOCALIZADO: int := 138
  const NENHUM_DOCUMENTO: int := 137
  const CONSUMO_INDEVIDO: int := 656

  datatype DistResult = DistResult(cStat: int, ultNsu: Nsu, maxNsu: Nsu, docs: seq<Doc>)

  predicate Understood(resp: DistResult) {
    resp.cStat == 138 || resp.cStat == 137 || resp.cStat == 656
  }

  predicate SameItems(docs: seq<Doc>, items: seq<Item>, isEvent: string -> bool) {
    && |items| == |docs|
    && forall i :: 0 <= i < |docs| ==> items[i] == Item(docs[i].nsu, isEvent(docs[i].schema))
  }

  /** The stop rules: 138 delivers, 137 and ultNSU at maxNSU mean caught up, 656 means wait. */
  predicate Interprets(resp: DistResult, cursor: Nsu, isEvent: string -> bool, now: Time, b: SourceBatch) {
    && (if resp.cStat == 138 then SameItems(resp.docs, b.batch.items, isEvent) else b.batch.items == [])
    && b.batch.next == Max(cursor, resp.ultNsu)
    && b.maxNsu == resp.maxNsu
    && (b.batch.done <==> resp.cStat != 138 || resp.ultNsu >= resp.maxNsu)
    && b.waitUntil == (if b.batch.done then Some(now + RequestGate.HOUR) else None)
    && b.stopReason == (if !b.batch.done then None
                        else if resp.cStat == 656 then Some(ConsumoIndevido)
                        else Some(CaughtUp))
  }

  method DistBatch(resp: DistResult, cursor: Nsu, isEvent: string -> bool, now: Time)
    returns (r: Result<SourceBatch, int>)
    ensures r.Ok? <==> Understood(resp)
    ensures r.Ok? ==> Interprets(resp, cursor, isEvent, now, r.value)
    ensures r.Err? ==> r.error == resp.cStat
  {
    var next := if cursor >= resp.ultNsu then cursor else resp.ultNsu;
    var wait := now + RequestGate.HOUR;
    if resp.cStat == LOCALIZADO {
      var items: seq<Item> := [];
      for i := 0 to |resp.docs|
        invariant SameItems(resp.docs[..i], items, isEvent)
      {
        items := items + [Item(resp.docs[i].nsu, isEvent(resp.docs[i].schema))];
      }
      assert resp.docs[..|resp.docs|] == resp.docs;
      if resp.ultNsu >= resp.maxNsu {
        return Ok(SourceBatch(Batch(items, next, true), resp.maxNsu, Some(CaughtUp), Some(wait)));
      }
      return Ok(SourceBatch(Batch(items, next, false), resp.maxNsu, None, None));
    } else if resp.cStat == NENHUM_DOCUMENTO {
      return Ok(SourceBatch(Batch([], next, true), resp.maxNsu, Some(CaughtUp), Some(wait)));
    } else if resp.cStat == CONSUMO_INDEVIDO {
      return Ok(SourceBatch(Batch([], next, true), resp.maxNsu, Some(ConsumoIndevido), Some(wait)));
    }
    return Err(resp.cStat);
  }

  predicate DocFor(docs: seq<Doc>, nsu: Nsu) {
    exists i :: 0 <= i < |docs| && docs[i].nsu == nsu
  }

  /** Each new document lies above every one before it, and none above ultNSU. */
  predicate InOrder(docs: seq<Doc>, cursor: Nsu, last: Nsu) {
    && (forall i, j :: 0 <= i < j < |docs| && docs[i].nsu > cursor && docs[j].nsu > cursor ==>
         docs[i].nsu < docs[j].nsu)
    && (forall i :: 0 <= i < |docs| && docs[i].nsu > cursor ==> docs[i].nsu <= last)
  }

  predicate OrderedAbove(items: seq<Item>, cursor: Nsu) {
    forall i, j :: 0 <= i < j < |items| && items[i].nsu > cursor && items[j].nsu > cursor ==>
      items[i].nsu < items[j].nsu
  }

  /** The head of an ordered list lies below everything new behind it. */
  predicate HeadBelow(items: seq<Item>, cursor: Nsu)
    requires items != []
  {
    items[0].nsu > cursor ==> forall j :: 0 < j < |items| && items[j].nsu > cursor ==> items[0].nsu < items[j].nsu
  }

  /** The items above the cursor keep their relative order. */
  lemma {:induction false} FreshAscending(items: seq<Item>, cursor: Nsu)
    ensures Ascending(Fresh(items, cursor)) <==> OrderedAbove(items, cursor)
  {
    hide Ascending, OrderedAbove, HeadBelow;
    if items != [] {
      var kept := Fresh(items[1..], cursor);
      FreshAscending(items[1..], cursor);
      HeadOfFresh(items, cursor);
      OrderSplits(items, cursor);
      if items[0].nsu > cursor {
        AscendingSplits(items[0], kept);
      } else {
        assert Fresh(items, cursor) == kept;
      }
    } else {
      assert Ascending([]) && OrderedAbove([], cursor) by {
        NothingToOrder(cursor);
      }
    }
  }

  lemma NothingToOrder(cursor: Nsu)
    ensures Ascending([]) && OrderedAbove([], cursor)
  {
  }

  predicate AllAfter(first: Item, rest: seq<Item>) {
    forall k :: 0 <= k < |rest| ==> first.nsu < rest[k].nsu
  }

  lemma AscendingTail(first: Item, rest: seq<Item>)
    requires Ascending([first] + rest)
    ensures Ascending(rest) && AllAfter(first, rest)
  {
    var all := [first] + rest;
    forall i, j | 0 <= i < j < |rest|
      ensures rest[i].nsu < rest[j].nsu
    {
      assert all[i + 1] == rest[i] && all[j + 1] == rest[j];
    }
    forall k | 0 <= k < |rest|
      ensures first.nsu < rest[k].nsu
    {
      assert all[0] == first && all[k + 1] == rest[k];
    }
  }

  lemma AscendingCons(first: Item, rest: seq<Item>)
    requires Ascending(rest) && AllAfter(first, rest)
    ensures Ascending([first] + rest)
  {
    var all := [first] + rest;
    forall i, j | 0 <= i < j < |all|
      ensures all[i].nsu < all[j].nsu
    {
      assert all[j] == rest[j - 1];
      if i > 0 {
        assert all[i] == rest[i - 1];
      }
    }
  }

  lemma AscendingSplits(first: Item, rest: seq<Item>)
    ensures Ascending([first] + rest) <==> Ascending(rest) && AllAfter(first, rest)
  {
    hide Ascending, AllAfter;
    if Ascending([first] + rest) {
      AscendingTail(first, rest);
    }
    if Ascending(rest) && AllAfter(first, rest) {
      AscendingCons(first, rest);
    }
  }

  lemma HeadOfFresh(items: seq<Item>, cursor: Nsu)
    requires items != []
    ensures items[0].nsu <= cursor ==> HeadBelow(items, cursor)
    ensures items[0].nsu > cursor ==>
              (HeadBelow(items, cursor) <==> AllAfter(items[0], Fresh(items[1..], cursor)))
  {
    hide Fresh;
    var rest, kept := items[1..], Fresh(items[1..], cursor);
    FreshMembers(rest, cursor);
    if HeadBelow(items, cursor) && items[0].nsu > cursor {
      forall k | 0 <= k < |kept|
        ensures items[0].nsu < kept[k].nsu
      {
        assert Among(kept, kept[k].nsu);
        var j :| 0 <= j < |rest| && rest[j].nsu == kept[k].nsu;
        assert items[j + 1] == rest[j];
      }
    }
    if AllAfter(items[0], kept) {
      forall j | 0 < j < |items| && items[j].nsu > cursor
        ensures items[0].nsu < items[j].nsu
      {
        assert rest[j - 1] == items[j];
        assert Among(kept, items[j].nsu);
        var k :| 0 <= k < |kept| && kept[k].nsu == items[j].nsu;
        assert items[0].nsu < kept[k].nsu;
      }
    }
  }

  /** Order over a list is order over its tail and between its head and the rest. */
  lemma OrderSplits(items: seq<Item>, cursor: Nsu)
    requires items != []
    ensures OrderedAbove(items, cursor) <==>
              OrderedAbove(items[1..], cursor) && HeadBelow(items, cursor)
  {
    var rest := items[1..];
    if OrderedAbove(items, cursor) {
      forall i, j | 0 <= i < j < |rest| && rest[i].nsu > cursor && rest[j].nsu > cursor
        ensures rest[i].nsu < rest[j].nsu
      {
        assert items[i + 1].nsu < items[j + 1].nsu;
      }
    }
    if OrderedAbove(rest, cursor) && HeadBelow(items, cursor) {
      forall i, j | 0 <= i < j < |items| && items[i].nsu > cursor && items[j].nsu > cursor
        ensures items[i].nsu < items[j].nsu
      {
        if i > 0 {
          assert rest[i - 1].nsu < rest[j - 1].nsu;
        }
      }
    }
  }

  lemma FreshBounded(items: seq<Item>, cursor: Nsu, last: Nsu)
    ensures (forall i :: 0 <= i < |Fresh(items, cursor)| ==> Fresh(items, cursor)[i].nsu <= last) <==>
              (forall i :: 0 <= i < |items| && items[i].nsu > cursor ==> items[i].nsu <= last)
  {
    hide Fresh;
    FreshMembers(items, cursor);
    var kept := Fresh(items, cursor);
    if forall i :: 0 <= i < |items| && items[i].nsu > cursor ==> items[i].nsu <= last {
      forall i | 0 <= i < |kept|
        ensures kept[i].nsu <= last
      {
        assert Among(kept, kept[i].nsu);
      }
    }
    if forall i :: 0 <= i < |kept| ==> kept[i].nsu <= last {
      forall j | 0 <= j < |items| && items[j].nsu > cursor
        ensures items[j].nsu <= last
      {
        assert Among(items, items[j].nsu);
        assert Among(kept, items[j].nsu);
      }
    }
  }

  /** Delivered documents lose nothing exactly when they come complete, in order and up to ultNSU. */
  lemma DeliveryHonestExactly(resp: DistResult, cursor: Nsu, isEvent: string -> bool, now: Time, b: SourceBatch,
                              queue: set<Nsu>)
    requires Interprets(resp, cursor, isEvent, now, b) && resp.cStat == 138
    ensures Honest(queue, cursor, b.batch) <==>
              && InOrder(resp.docs, cursor, resp.ultNsu)
              && forall n :: n in queue && cursor < n <= resp.ultNsu ==> DocFor(resp.docs, n)
  {
    FreshAscending(b.batch.items, cursor);
    FreshBounded(b.batch.items, cursor, b.batch.next);
    forall n: Nsu
      ensures Among(b.batch.items, n) <==> DocFor(resp.docs, n)
    {
      if Among(b.batch.items, n) {
        var i :| 0 <= i < |b.batch.items| && b.batch.items[i].nsu == n;
        assert resp.docs[i].nsu == n;
      }
      if DocFor(resp.docs, n) {
        var i :| 0 <= i < |resp.docs| && resp.docs[i].nsu == n;
        assert b.batch.items[i].nsu == n;
      }
    }
    OrderOfDocs(resp, cursor, b.batch.items, isEvent);
  }

  lemma OrderOfDocs(resp: DistResult, cursor: Nsu, items: seq<Item>, isEvent: string -> bool)
    requires SameItems(resp.docs, items, isEvent)
    ensures InOrder(resp.docs, cursor, resp.ultNsu) <==>
              && OrderedAbove(items, cursor)
              && (forall i :: 0 <= i < |items| && items[i].nsu > cursor ==> items[i].nsu <= Max(cursor, resp.ultNsu))
  {
    forall i | 0 <= i < |items|
      ensures items[i].nsu == resp.docs[i].nsu
    {
    }
  }

  /** Without documents the cursor still moves to ultNSU: safe exactly when the queue is empty up to it. */
  lemma EmptyAnswerHonestExactly(resp: DistResult, cursor: Nsu, isEvent: string -> bool, now: Time, b: SourceBatch,
                                 queue: set<Nsu>)
    requires Interprets(resp, cursor, isEvent, now, b) && Understood(resp) && resp.cStat != 138
    ensures Honest(queue, cursor, b.batch) <==> forall n :: n in queue && cursor < n ==> n > resp.ultNsu
  {
  }

  // ----- NFS-e -----

  predicate NonDecreasing(items: seq<Item>) {
    forall i, j :: 0 <= i < j < |items| ==> items[i].nsu <= items[j].nsu
  }

  method Insert(sorted: seq<Item>, item: Item) returns (r: seq<Item>)
    requires NonDecreasing(sorted)
    ensures NonDecreasing(r) && multiset(r) == multiset(sorted) + multiset{item}
  {
    var k := |sorted|;
    while k > 0 && sorted[k - 1].nsu > item.nsu
      invariant 0 <= k <= |sorted|
      invariant k < |sorted| ==> sorted[k].nsu > item.nsu
    {
      k := k - 1;
    }
    r := sorted[..k] + [item] + sorted[k..];
    InsertedInOrder(sorted, k, item);
    InsertedItems(sorted, k, item);
  }

  lemma InsertedInOrder(sorted: seq<Item>, k: nat, item: Item)
    requires NonDecreasing(sorted) && k <= |sorted|
    requires k > 0 ==> sorted[k - 1].nsu <= item.nsu
    requires k < |sorted| ==> sorted[k].nsu > item.nsu
    ensures NonDecreasing(sorted[..k] + [item] + sorted[k..])
  {
    var left, right := sorted[..k], sorted[k..];
    AllBelow(left, item);
    AllAbove(right, item);
    Joined(left, [item]);
    Joined(left + [item], right);
  }

  lemma InsertedItems(sorted: seq<Item>, k: nat, item: Item)
    requires k <= |sorted|
    ensures multiset(sorted[..k] + [item] + sorted[k..]) == multiset(sorted) + multiset{item}
  {
    assert sorted == sorted[..k] + sorted[k..];
  }

  lemma AllBelow(items: seq<Item>, item: Item)
    requires NonDecreasing(items) && (items != [] ==> items[|items| - 1].nsu <= item.nsu)
    ensures forall i :: 0 <= i < |items| ==> items[i].nsu <= item.nsu
  {
  }

  lemma AllAbove(items: seq<Item>, item: Item)
    requires NonDecreasing(items) && (items != [] ==> items[0].nsu > item.nsu)
    ensures forall i :: 0 <= i < |items| ==> items[i].nsu > item.nsu
  {
  }

  lemma Joined(a: seq<Item>, b: seq<Item>)
    requires NonDecreasing(a) && NonDecreasing(b)
    requires forall i, j :: 0 <= i < |a| && 0 <= j < |b| ==> a[i].nsu <= b[j].nsu
    ensures NonDecreasing(a + b)
  {
  }

  /** slices.SortFunc by NSU. */
  method SortByNsu(items: seq<Item>) returns (r: seq<Item>)
    ensures NonDecreasing(r) && multiset(r) == multiset(items)
  {
    r := [];
    for i := 0 to |items|
      invariant NonDecreasing(r) && multiset(r) == multiset(items[..i])
    {
      assert items[..i + 1] == items[..i] + [items[i]];
      r := Insert(r, items[i]);
    }
    assert items[..|items|] == items;
  }

  /** The same documents in NSU order, the highest NSU as next cursor; no documents end the run. */
  predicate Fetched(docs: seq<Item>, cursor: Nsu, b: SourceBatch) {
    && multiset(b.batch.items) == multiset(docs) && NonDecreasing(b.batch.items)
    && b.batch.next >= cursor
    && (forall i :: 0 <= i < |b.batch.items| ==> b.batch.items[i].nsu <= b.batch.next)
    && (b.batch.next == cursor || Among(b.batch.items, b.batch.next))
    && (b.batch.done <==> docs == [])
    && b.stopReason == (if docs == [] then Some(EmptyLimit) else None)
    && b.waitUntil.None?
  }

  method NfseFetch(docs: seq<Item>, maxNsu: Nsu, cursor: Nsu) returns (b: SourceBatch)
    ensures Fetched(docs, cursor, b) && b.maxNsu == maxNsu
  {
    var items: seq<Item>, next := [], cursor;
    for i := 0 to |docs|
      invariant items == docs[..i]
      invariant next >= cursor && forall j :: 0 <= j < i ==> docs[j].nsu <= next
      invariant next == cursor || exists j :: 0 <= j < i && docs[j].nsu == next
    {
      items := items + [docs[i]];
      next := Max(next, docs[i].nsu);
    }
    assert items == docs;
    var sorted := SortByNsu(items);
    assert |sorted| == |multiset(sorted)| == |docs|;
    forall i | 0 <= i < |sorted|
      ensures sorted[i].nsu <= next
    {
      assert sorted[i] in multiset(sorted);
    }
    if next != cursor {
      var j :| 0 <= j < |docs| && docs[j].nsu == next;
      assert docs[j] in multiset(sorted);
      var i :| 0 <= i < |sorted| && sorted[i] == docs[j];
      assert Among(sorted, next);
    }
    if |sorted| == 0 {
      return SourceBatch(Batch(sorted, next, true), maxNsu, Some(EmptyLimit), None);
    }
    return SourceBatch(Batch(sorted, next, false), maxNsu, None, None);
  }

  /** Sorted answers need no order from the authority: complete ones with distinct new NSUs lose nothing. */
  lemma NfseHonestExactly(docs: seq<Item>, cursor: Nsu, b: SourceBatch, queue: set<Nsu>)
    requires Fetched(docs, cursor, b)
    ensures Honest(queue, cursor, b.batch) <==>
              && (forall i, j :: 0 <= i < j < |b.batch.items| && b.batch.items[i].nsu > cursor ==>
                   b.batch.items[i].nsu != b.batch.items[j].nsu)
              && forall n :: n in queue && cursor < n <= b.batch.next ==> Among(docs, n)
  {
    var items := b.batch.items;
    FreshAscending(items, cursor);
    FreshBounded(items, cursor, b.batch.next);
    forall n: Nsu
      ensures Among(items, n) <==> Among(docs, n)
    {
      if Among(items, n) {
        SameMembers(items, docs, n);
      }
      if Among(docs, n) {
        SameMembers(docs, items, n);
      }
    }
    if OrderedAbove(items, cursor) {
      forall i, j | 0 <= i < j < |items| && items[i].nsu > cursor
        ensures items[i].nsu != items[j].nsu
      {
        assert items[i].nsu <= items[j].nsu;
      }
    }
  }

  lemma SameMembers(a: seq<Item>, b: seq<Item>, n: Nsu)
    requires multiset(a) == multiset(b) && Among(a, n)
    ensures Among(b, n)
  {
    var i :| 0 <= i < |a| && a[i].nsu == n;
    assert a[i] in multiset(b);
    var j :| 0 <= j < |b| && b[j] == a[i];
  }
}
