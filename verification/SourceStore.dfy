/**
 The tables behind the request gate, shared by every company and source: sync_requests, the waits of
 company_sync_sources and the reservations of this process (internal/sync/store.go,
 internal/sync/manager.go, internal/app/nfe_fetch.go). Whatever order the callers run in, each
 company and source sees a legal history of the RequestGate protocol.
 */
module SourceStore {
  import opened Wrappers
  import opened RequestGate

  datatype Source = NFSe | NFe | CTe

  /** One company's source, in the company's current environment. */
  datatype Key = Key(company: nat, source: Source)

  datatype Row = Row(key: Key, at: Time)

  datatype Tables = Tables(requests: seq<Row>, blocks: map<Key, Block>, running: set<Key>)

  function RowsOf(rows: seq<Row>, key: Key): seq<Time> {
    if rows == [] then []
    else
      var row := rows[|rows| - 1];
      RowsOf(rows[..|rows| - 1], key) + if row.key == key then [row.at] else []
  }

  /** The rows that survive the pruning of every company, source and environment. */
  function PruneRows(rows: seq<Row>, cutoff: Time): seq<Row> {
    if rows == [] then []
    else
      var row := rows[|rows| - 1];
      PruneRows(rows[..|rows| - 1], cutoff) + if row.at < cutoff then [] else [row]
  }

  function BlockOf(blocks: map<Key, Block>, key: Key): Option<Block> {
    if key in blocks then Some(blocks[key]) else None
  }

  lemma RowsOfAppend(rows: seq<Row>, row: Row, key: Key)
    ensures RowsOf(rows + [row], key) == RowsOf(rows, key) + if row.key == key then [row.at] else []
  {
    assert (rows + [row])[..|rows|] == rows;
  }

  lemma {:induction false} PruneRowsOf(rows: seq<Row>, cutoff: Time, key: Key)
    ensures RowsOf(PruneRows(rows, cutoff), key) == Prune(RowsOf(rows, key), cutoff)
  {
    if rows != [] {
      var n := |rows| - 1;
      var front := RowsOf(rows[..n], key);
      PruneRowsOf(rows[..n], cutoff, key);
      if rows[n].at >= cutoff {
        RowsOfAppend(PruneRows(rows[..n], cutoff), rows[n], key);
      } else {
        assert PruneRows(rows, cutoff) == PruneRows(rows[..n], cutoff);
      }
      if rows[n].key == key {
        assert (front + [rows[n].at])[..|front|] == front;
      } else {
        assert RowsOf(rows, key) == front;
      }
    }
  }

  lemma {:induction false} PrunedAre(rows: seq<Row>, cutoff: Time)
    ensures forall row :: row in PruneRows(rows, cutoff) <==> row in rows && row.at >= cutoff
  {
    if rows != [] {
      PrunedAre(rows[..|rows| - 1], cutoff);
    }
  }

  // ----- one global trace, one history per company and source -----

  datatype Entry = Entry(key: Key, event: Event)

  /** What one company's source notices of an entry: its own events, and the pruning of the others. */
  function Noticed(entry: Entry, key: Key): seq<Event> {
    if entry.key == key then [entry.event]
    else if entry.event.Spend? then [OtherRecord(entry.event.now)]
    else []
  }

  function History(trace: seq<Entry>, key: Key): seq<Event> {
    if trace == [] then [] else History(trace[..|trace| - 1], key) + Noticed(trace[|trace| - 1], key)
  }

  /** What an event does to the tables; reservations are taken before and released after. */
  function Apply(t: Tables, key: Key, e: Event): Tables {
    match e
    case Spend(now) => t.(requests := PruneRows(t.requests + [Row(key, now)], now - RETENTION))
    case Exhaust(now) =>
      var until := match OldestSince(RowsOf(t.requests, key), now - HOUR)
        case None => now + HOUR
        case Some(oldest) => oldest + HOUR;
      t.(blocks := t.blocks[key := Block(until, RateBudget)])
    case Wait(_, block) => t.(blocks := t.blocks[key := block])
    case End(_) => t.(running := t.running - {key})
    case _ => t
  }

  /** What setting a block means: the budget is spent, or the answer asks to wait. */
  function BlockEvent(now: Time, block: Block): Event {
    if block.reason.RateBudget? then Exhaust(now) else Wait(now, block)
  }

  predicate Shows(t: Tables, key: Key, g: Gate) {
    && g.rows == RowsOf(t.requests, key)
    && g.block == BlockOf(t.blocks, key)
    && (!g.phase.Free? ==> key in t.running)
  }

  /** Every history is legal, and the tables show where it leads. */
  ghost predicate Agrees(start: Time, trace: seq<Entry>, clock: Time, t: Tables) {
    forall key :: Follows(start, trace, clock, t, key)
  }

  predicate Follows(start: Time, trace: seq<Entry>, clock: Time, t: Tables, key: Key) {
    var g := Replay(start, History(trace, key));
    g.Some? && g.value.clock <= clock && Shows(t, key, g.value)
  }

  lemma HistoryAppend(trace: seq<Entry>, entry: Entry, key: Key)
    ensures History(trace + [entry], key) == History(trace, key) + Noticed(entry, key)
  {
    assert (trace + [entry])[..|trace|] == trace;
  }

  lemma {:induction false} HistoryPrefix(trace: seq<Entry>, i: nat, key: Key)
    requires i <= |trace|
    ensures History(trace[..i], key) <= History(trace, key)
  {
    if i < |trace| {
      HistoryPrefix(trace[..|trace| - 1], i, key);
      assert trace[..|trace| - 1][..i] == trace[..i];
    } else {
      assert trace[..i] == trace;
    }
  }

  /** Where an entry stands in the history of its own source. */
  lemma HistoryAt(trace: seq<Entry>, i: nat, key: Key)
    requires i < |trace| && trace[i].key == key
    ensures |History(trace[..i], key)| < |History(trace[..i + 1], key)| <= |History(trace, key)|
    ensures History(trace, key)[|History(trace[..i], key)|] == trace[i].event
  {
    assert trace[..i + 1] == trace[..i] + [trace[i]];
    HistoryAppend(trace[..i], trace[i], key);
    HistoryPrefix(trace, i + 1, key);
  }

  /** No lookup by chave for this source. */
  predicate NoLookupsOf(trace: seq<Entry>, key: Key) {
    forall i :: 0 <= i < |trace| && trace[i].key == key ==> !trace[i].event.BeginFetch?
  }

  lemma {:induction false} NoLookupsInHistory(trace: seq<Entry>, key: Key)
    requires NoLookupsOf(trace, key)
    ensures NoLookups(History(trace, key))
  {
    if trace != [] {
      NoLookupsInHistory(trace[..|trace| - 1], key);
    }
  }

  lemma OwnerFollows(start: Time, trace: seq<Entry>, clock: Time, t: Tables, key: Key, e: Event)
    requires Follows(start, trace, clock, t, key) && clock <= e.now && !e.OtherRecord?
    requires Allowed(Replay(start, History(trace, key)).value, e)
    requires e.BeginPull? || e.BeginFetch? ==> key in t.running
    ensures Follows(start, trace + [Entry(key, e)], e.now, Apply(t, key, e), key)
  {
    hide CountSince, OldestSince, Prune, PruneRows, RowsOf, History, Replay;
    ReplayAppend(start, History(trace, key), e);
    HistoryAppend(trace, Entry(key, e), key);
    if e.Spend? {
      RowsOfAppend(t.requests, Row(key, e.now), key);
      PruneRowsOf(t.requests + [Row(key, e.now)], e.now - RETENTION, key);
    }
  }

  lemma OtherFollows(start: Time, trace: seq<Entry>, clock: Time, t: Tables, key: Key, e: Event, k: Key)
    requires Follows(start, trace, clock, t, k) && clock <= e.now && k != key
    ensures Follows(start, trace + [Entry(key, e)], e.now, Apply(t, key, e), k)
  {
    hide CountSince, OldestSince, Prune, PruneRows, RowsOf, History, Replay;
    var h := History(trace, k);
    HistoryAppend(trace, Entry(key, e), k);
    if e.Spend? {
      ReplayAppend(start, h, OtherRecord(e.now));
      RowsOfAppend(t.requests, Row(key, e.now), k);
      PruneRowsOf(t.requests + [Row(key, e.now)], e.now - RETENTION, k);
      assert RowsOf(t.requests, k) + [] == RowsOf(t.requests, k);
    } else {
      assert History(trace + [Entry(key, e)], k) == h;
    }
  }

  /** An allowed event of one company's source keeps every history legal. */
  lemma EventAgrees(start: Time, trace: seq<Entry>, clock: Time, t: Tables, key: Key, e: Event)
    requires Agrees(start, trace, clock, t) && clock <= e.now && !e.OtherRecord?
    requires Replay(start, History(trace, key)).Some? && Allowed(Replay(start, History(trace, key)).value, e)
    requires e.BeginPull? || e.BeginFetch? ==> key in t.running
    ensures Agrees(start, trace + [Entry(key, e)], e.now, Apply(t, key, e))
  {
    forall k
      ensures Follows(start, trace + [Entry(key, e)], e.now, Apply(t, key, e), k)
    {
      assert Follows(start, trace, clock, t, k);
      if k == key {
        OwnerFollows(start, trace, clock, t, key, e);
      } else {
        OtherFollows(start, trace, clock, t, key, e, k);
      }
    }
  }

  // ----- the store -----

  function RequestsPerHour(source: Source): int {
    if source.NFSe? then 0 else LIMIT
  }

  datatype FetchError = Running | BlockedUntil(block: Block) | NoCertificate | BudgetSpent | NoAnswer

  /** An answer to a query by chave. */
  datatype FetchAnswer = Failed | Refused | NotFound | Delivered

  predicate OfKey(entries: seq<Entry>, key: Key) {
    forall i :: 0 <= i < |entries| ==> entries[i].key == key
  }

  lemma NoneOther(key: Key)
    ensures OfKey([], key)
  {
  }

  lemma OneKeyOnly(entry: Entry, rest: seq<Entry>, key: Key)
    requires entry.key == key && OfKey(rest, key)
    ensures OfKey([entry] + rest, key)
  {
  }

  /** What a query by chave did, in order, and the result that goes with it; before and after are the block. */
  predicate LookedUp(before: Option<Block>, after: Option<Block>, clock: Time, did: seq<Entry>, certificate: bool,
                     answer: FetchAnswer, r: Result<FetchAnswer, FetchError>) {
    if did == [] then
      Blocked(before, clock, true) && r == Err(BlockedUntil(before.value))
    else
      && did[0].event.BeginFetch? && !Blocked(before, did[0].event.now, true)
      && if |did| == 1 then !certificate && r == Err(NoCertificate)
         else certificate && Asked(after, clock, did[1..], answer, r)
  }

  /** The budget is spent and blocks, or the request is paid for, sent and answered. */
  predicate Asked(after: Option<Block>, clock: Time, did: seq<Entry>, answer: FetchAnswer, r: Result<FetchAnswer,
                  FetchError>) {
    && did != []
    && if did[0].event.Exhaust? then
         |did| == 1 && r == Err(if Blocked(after, clock, true) then BlockedUntil(after.value) else BudgetSpent)
       else
         && |did| >= 2 && did[0].event.Spend? && did[1].event.Send?
         && if answer.Refused? then
              && |did| == 3 && did[2].event.Wait?
              && did[2].event.block == Block(did[2].event.now + HOUR, ConsumoIndevido)
              && r == Err(BlockedUntil(did[2].event.block))
            else
              |did| == 2 && r == if answer.Failed? then Err(NoAnswer) else Ok(answer)
  }

  lemma AskedTooOften(after: Option<Block>, clock: Time, key: Key, t: Time, answer: FetchAnswer)
    ensures Asked(after, clock, [Entry(key, Exhaust(t))], answer,
                  Err(if Blocked(after, clock, true) then BlockedUntil(after.value) else BudgetSpent))
  {
  }

  lemma AskedAndAnswered(after: Option<Block>, clock: Time, key: Key, paid: Time, sent: Time, answer: FetchAnswer)
    requires !answer.Refused?
    ensures Asked(after, clock, [Entry(key, Spend(paid))] + [Entry(key, Send(sent))], answer,
                  if answer.Failed? then Err(NoAnswer) else Ok(answer))
  {
  }

  lemma AskedAndRefused(after: Option<Block>, clock: Time, key: Key, paid: Time, sent: Time, wait: Entry)
    requires wait.event.Wait? && wait.event.block == Block(wait.event.now + HOUR, ConsumoIndevido)
    ensures Asked(after, clock, [Entry(key, Spend(paid))] + ([Entry(key, Send(sent))] + [wait]), Refused,
                  Err(BlockedUntil(wait.event.block)))
  {
  }

  class Store {
    var requests: seq<Row>
    var blocks: map<Key, Block>
    var initialSyncDone: map<Key, Time>
    var running: set<Key>
    var clock: Time
    ghost const start: Time
    ghost var trace: seq<Entry>

    ghost function Snapshot(): Tables
      reads this
    {
      Tables(requests, blocks, running)
    }

    ghost predicate Valid()
      reads this
    {
      Agrees(start, trace, clock, Snapshot())
    }

    /** Where the protocol stands for one company's source. */
    ghost function GateOf(key: Key): (g: Gate)
      reads this
      requires Valid()
      ensures g.clock <= clock && Shows(Snapshot(), key, g)
    {
      assert Follows(start, trace, clock, Snapshot(), key);
      Replay(start, History(trace, key)).value
    }

    constructor (start: Time)
      ensures Valid() && requests == [] && blocks == map[] && running == {} && trace == []
    {
      this.start := start;
      clock := start;
      requests, blocks, initialSyncDone, running, trace := [], map[], map[], {}, [];
    }

    /**
     Over everything that ever ran, no closed hour holds more than 20 payments of one source, nor more
     than 20 requests sent, or 21 when one of them was paid for before.
     */
    lemma NoHourOverBudget(key: Key, w: Time)
      requires Valid()
      ensures CountWindow(GateOf(key).spent, w) <= LIMIT
      ensures CountWindow(SentTimes(History(trace, key)), w) <= LIMIT + One(HasLateSend(start, History(trace, key), w))
    {
      assert Follows(start, trace, clock, Snapshot(), key);
      NeverOverBudget(start, History(trace, key));
      SentPerHour(start, History(trace, key), w);
    }

    /**
     Whatever else ran in between: after a recorded wait nobody sends for that source before it ends, when
     it is for consumo_indevido, or when the source is only pulled and never looked up by chave.
     */
    lemma WaitsHold(key: Key, i: nat, j: nat)
      requires Valid() && i < j < |trace| && trace[i].key == key && trace[j].key == key
      requires trace[i].event.Wait? && trace[j].event.Send?
      requires trace[i].event.block.reason.ConsumoIndevido? || NoLookupsOf(trace, key)
      ensures trace[j].event.now >= trace[i].event.block.until
    {
      hide History, Replay, NoLookupsOf, NoLookups;
      var h := History(trace, key);
      assert Follows(start, trace, clock, Snapshot(), key);
      HistoryAt(trace, i, key);
      HistoryAt(trace, j, key);
      HistoryPrefix(trace[..j], i + 1, key);
      assert trace[..j][..i + 1] == trace[..i + 1];
      var m, n := |History(trace[..i], key)|, |History(trace[..j], key)|;
      if trace[i].event.block.reason.ConsumoIndevido? {
        ConsumoIndevidoIsRespected(start, h, m, n);
      } else {
        NoLookupsInHistory(trace, key);
        PullsAndResetsRespectWaits(start, h, m, n);
      }
    }

    /** The system clock, which is taken never to go back. */
    method Now() returns (now: Time)
      requires Valid()
      modifies this`clock
      ensures Valid() && now == clock >= old(clock)
      ensures forall key :: GateOf(key) == old(GateOf(key))
    {
      now := *;
      if now < clock {
        now := clock;
      }
      forall key
        ensures Follows(start, trace, now, Snapshot(), key)
      {
        assert Follows(start, trace, clock, Snapshot(), key);
      }
      clock := now;
    }

    method ReserveSource(key: Key) returns (ok: bool)
      requires Valid()
      modifies this`running
      ensures Valid()
      ensures ok == (key !in old(running)) && running == old(running) + {key}
      ensures forall k :: GateOf(k) == old(GateOf(k))
      ensures ok ==> GateOf(key).phase.Free?
    {
      forall k
        ensures Follows(start, trace, clock, Snapshot().(running := running + {key}), k)
        ensures k !in running ==> Replay(start, History(trace, k)).value.phase.Free?
      {
        assert Follows(start, trace, clock, Snapshot(), k);
      }
      ok := key !in running;
      running := running + {key};
    }

    /** Records what just happened in the trace; the tables must already show it. */
    ghost method Happened(key: Key, e: Event, before: Tables)
      requires Agrees(start, trace, clock, before) && e.now == clock && !e.OtherRecord?
      requires Follows(start, trace, clock, before, key) && Allowed(Replay(start, History(trace, key)).value, e)
      requires Snapshot() == Apply(before, key, e)
      requires e.BeginPull? || e.BeginFetch? ==> key in before.running
      modifies this`trace
      ensures Valid() && trace == old(trace) + [Entry(key, e)]
      ensures GateOf(key) == Next(Replay(start, History(old(trace), key)).value, e)
    {
      EventAgrees(start, trace, clock, before, key, e);
      assert (trace + [Entry(key, e)])[..|trace|] == trace;
      ReplayAppend(start, History(trace, key), e);
      trace := trace + [Entry(key, e)];
    }

    /** Records an event that leaves the tables as they are. */
    ghost method Note(key: Key, e: Event)
      requires Valid() && e.now == clock && Allowed(GateOf(key), e)
      requires e.Send? || ((e.BeginPull? || e.BeginFetch?) && key in running)
      modifies this`trace
      ensures Valid() && trace == old(trace) + [Entry(key, e)]
      ensures GateOf(key) == Next(old(GateOf(key)), e)
    {
      assert Follows(start, trace, clock, Snapshot(), key);
      Happened(key, e, Snapshot());
    }

    /** The wait in force that forbids a query now; onlyHard ignores the wait after catching up. */
    method BlockedFor(key: Key, now: Time, onlyHard: bool) returns (r: Option<Block>)
      requires Valid() && now == clock
      ensures r.Some? <==> Blocked(GateOf(key).block, now, onlyHard)
      ensures r.Some? ==> r == GateOf(key).block
    {
      assert Follows(start, trace, clock, Snapshot(), key);
      if key !in blocks || now >= blocks[key].until {
        return None;
      }
      if onlyHard && blocks[key].reason.CaughtUp? {
        return None;
      }
      return Some(blocks[key]);
    }

    /** How many requests the source sent at or after since, and the oldest of them. */
    method RequestsSince(key: Key, since: Time) returns (count: nat, oldest: Option<Time>)
      requires Valid()
      ensures count == CountSince(GateOf(key).rows, since) && oldest == OldestSince(GateOf(key).rows, since)
    {
      var rows := RowsOf(requests, key);
      return CountSince(rows, since), OldestSince(rows, since);
    }

    method RecordRequest(key: Key, now: Time)
      requires Valid() && now == clock && Allowed(GateOf(key), Spend(now))
      modifies this`requests, this`trace
      ensures Valid() && trace == old(trace) + [Entry(key, Spend(now))]
      ensures requests == PruneRows(old(requests) + [Row(key, now)], now - RETENTION)
      // Every request of the last 24 hours stays, whoever made it, and nothing older.
      ensures forall row ::
                row in requests <==> (row in old(requests) || row == Row(key, now)) && row.at >= now - 86_400
      ensures GateOf(key) == Next(old(GateOf(key)), Spend(now))
    {
      hide Next;
      ghost var before := Snapshot();
      assert Follows(start, trace, clock, before, key);
      PrunedAre(requests + [Row(key, now)], now - RETENTION);
      requests := PruneRows(requests + [Row(key, now)], now - RETENTION);
      Happened(key, Spend(now), before);
    }

    /** Sets the wait, replacing the one there was: a spent budget, or the wait that came with an answer. */
    method SetBlockedUntil(key: Key, until: Time, reason: Reason)
      requires Valid() && Allowed(GateOf(key), BlockEvent(clock, Block(until, reason)))
      requires reason.RateBudget? ==> until == BudgetUntil(GateOf(key), clock)
      modifies this`blocks, this`trace
      ensures Valid() && blocks == old(blocks)[key := Block(until, reason)]
      ensures trace == old(trace) + [Entry(key, BlockEvent(clock, Block(until, reason)))]
      ensures GateOf(key) == Next(old(GateOf(key)), BlockEvent(clock, Block(until, reason)))
    {
      hide Next;
      ghost var before := Snapshot();
      assert Follows(start, trace, clock, before, key);
      blocks := blocks[key := Block(until, reason)];
      Happened(key, BlockEvent(clock, Block(until, reason)), before);
    }

    /** Pays for one request, or blocks the source until the oldest of the hour expires. */
    method SpendRequest(key: Key, limit: int) returns (ok: bool)
      requires Valid() && limit == RequestsPerHour(key.source)
      requires limit > 0 ==> Active(GateOf(key).phase) && !GateOf(key).phase.ready
      modifies this`requests, this`blocks, this`clock, this`trace
      ensures Valid() && clock >= old(clock)
      ensures limit <= 0 ==> ok && requests == old(requests) && blocks == old(blocks) && trace == old(trace)
      ensures limit > 0 ==> trace == old(trace) + [Entry(key, if ok then Spend(clock) else Exhaust(clock))]
      ensures limit > 0 && ok ==> GateOf(key) == Next(old(GateOf(key)), Spend(clock)) && blocks == old(blocks)
      ensures limit > 0 && !ok ==> GateOf(key) == Next(old(GateOf(key)), Exhaust(clock)) && requests == old(requests)
    {
      hide Agrees, Replay, CountSince, OldestSince, Prune, PruneRows, RowsOf, Next;
      if limit <= 0 {
        return true;
      }
      var now := Now();
      var count, oldest := RequestsSince(key, now - HOUR);
      if count >= limit {
        var until := now + HOUR;
        if oldest.Some? {
          until := oldest.value + HOUR;
        }
        SetBlockedUntil(key, until, RateBudget);
        return false;
      }
      RecordRequest(key, now);
      return true;
    }

    /** Gives the reservation back; other sources notice nothing. */
    method Release(key: Key)
      requires Valid()
      modifies this`running, this`trace
      ensures Valid() && running == old(running) - {key}
      ensures forall k :: k != key ==> GateOf(k) == old(GateOf(k))
      ensures trace == old(trace) + [Entry(key, End(clock))]
      ensures GateOf(key) == Next(old(GateOf(key)), End(clock))
    {
      assert Follows(start, trace, clock, Snapshot(), key);
      ghost var before := Snapshot();
      running := running - {key};
      ghost var was := trace;
      Happened(key, End(clock), before);
      forall k | k != key
        ensures History(trace, k) == History(was, k)
      {
        assert trace[..|was|] == was && History(was, k) + [] == History(was, k);
      }
    }

    /** Clears the initial-sync flag and keeps the wait. */
    method ClearInitialSync(key: Key)
      requires Valid() && GateOf(key).phase.Free?
      modifies this`initialSyncDone, this`trace
      ensures Valid() && initialSyncDone == old(initialSyncDone) - {key}
      ensures trace == old(trace) + [Entry(key, RequestGate.Event.Reset(clock))]
      ensures GateOf(key).block == old(GateOf(key).block) && GateOf(key).phase.Free?
    {
      assert Follows(start, trace, clock, Snapshot(), key);
      initialSyncDone := initialSyncDone - {key};
      Happened(key, RequestGate.Event.Reset(clock), Snapshot());
    }

    method MarkInitialSyncCompleted(key: Key)
      requires Valid()
      modifies this`initialSyncDone, this`clock
      ensures Valid() && clock >= old(clock)
      ensures forall k :: GateOf(k) == old(GateOf(k))
      ensures initialSyncDone == if key in old(initialSyncDone) then old(initialSyncDone)
                else old(initialSyncDone)[key := clock]
    {
      var now := Now();
      if key !in initialSyncDone {
        initialSyncDone := initialSyncDone[key := now];
      }
    }

    /**
     A query by chave: it spends like a pull, ignores the wait after catching up and records a refusal.
     Whatever happens the reservation is given back.
     */
    method FetchByChave(key: Key, certificate: bool, answer: FetchAnswer)
      returns (r: Result<FetchAnswer, FetchError>, ghost did: seq<Entry>)
      requires Valid() && key.source.NFe?
      modifies this
      ensures Valid() && running == old(running) && initialSyncDone == old(initialSyncDone)
      ensures r == Err(Running) <==> key in old(running)
      ensures r == Err(Running) ==> trace == old(trace) && requests == old(requests) && blocks == old(blocks)
      ensures r != Err(Running) ==>
                && LookedUp(old(GateOf(key)).block, GateOf(key).block, clock, did, certificate, answer, r)
                && OfKey(did, key)
                && trace == old(trace) + did + [Entry(key, End(clock))] && GateOf(key).phase.Free?
    {
      hide Agrees, Replay;
      var ok := ReserveSource(key);
      if !ok {
        return Err(Running), [];
      }
      r, did := Lookup(key, certificate, answer);
      Release(key);
    }

    /** The part of FetchByChave that holds the reservation. */
    method Lookup(key: Key, certificate: bool, answer: FetchAnswer)
      returns (r: Result<FetchAnswer, FetchError>, ghost did: seq<Entry>)
      requires Valid() && key.source.NFe? && key in running && GateOf(key).phase.Free?
      modifies this`requests, this`blocks, this`clock, this`trace
      ensures Valid() && r != Err(Running) && OfKey(did, key) && trace == old(trace) + did
      ensures LookedUp(old(GateOf(key)).block, GateOf(key).block, clock, did, certificate, answer, r)
    {
      hide Agrees, Replay, CountSince, OldestSince, Prune, PruneRows, RowsOf, Asked;
      var now := Now();
      var blocked := BlockedFor(key, now, true);
      if blocked.Some? {
        return Err(BlockedUntil(blocked.value)), [];
      }
      Note(key, BeginFetch(now));
      did := [Entry(key, BeginFetch(now))];
      if !certificate {
        return Err(NoCertificate), did;
      }
      ghost var begun := did;
      r, did := Ask(key, answer);
      assert (begun + did)[1..] == did;
      did := begun + did;
    }

    /** Pays for one request, sends it and handles the answer. */
    method Ask(key: Key, answer: FetchAnswer) returns (r: Result<FetchAnswer, FetchError>, ghost did: seq<Entry>)
      requires Valid() && key.source.NFe? && GateOf(key).phase == Fetching(false, false)
      modifies this`requests, this`blocks, this`clock, this`trace
      ensures Valid() && r != Err(Running) && did != [] && OfKey(did, key) && trace == old(trace) + did
      ensures Asked(GateOf(key).block, clock, did, answer, r)
    {
      hide Shows, BudgetUntil, Agrees, Replay, CountSince, OldestSince, Prune, PruneRows, RowsOf, Asked, Blocked,
           Allowed, OfKey;
      var spent := SpendRequest(key, RequestsPerHour(key.source));
      ghost var paid := clock;
      if !spent {
        did := [Entry(key, Exhaust(paid))];
        NoneOther(key);
        OneKeyOnly(did[0], [], key);
        assert did == [did[0]] + [];
        r := RefuseSpent(key);
        AskedTooOften(GateOf(key).block, clock, key, paid, answer);
        return;
      }
      ghost var rest;
      r, rest := SendAndRead(key, answer, paid);
      did := [Entry(key, Spend(paid))] + rest;
      OneKeyOnly(did[0], rest, key);
    }

    /** The block the spent budget set is reported while it is in force. */
    method RefuseSpent(key: Key) returns (r: Result<FetchAnswer, FetchError>)
      requires Valid()
      modifies this`clock
      ensures Valid() && forall k :: GateOf(k) == old(GateOf(k))
      ensures var block := GateOf(key).block;
              r == Err(if Blocked(block, clock, true) then BlockedUntil(block.value) else BudgetSpent)
    {
      hide Shows, Agrees, Replay;
      var now := Now();
      var blocked := BlockedFor(key, now, true);
      r := Err(if blocked.Some? then BlockedUntil(blocked.value) else BudgetSpent);
    }

    /** The paid request, and the wait when it is refused. */
    method SendAndRead(key: Key, answer: FetchAnswer, ghost paid: Time)
      returns (r: Result<FetchAnswer, FetchError>, ghost did: seq<Entry>)
      requires Valid() && GateOf(key).phase == Fetching(true, false)
      modifies this`blocks, this`clock, this`trace
      ensures Valid() && OfKey(did, key) && trace == old(trace) + did
      ensures r != Err(Running) && Asked(GateOf(key).block, clock, [Entry(key, Spend(paid))] + did, answer, r)
    {
      hide Shows, Agrees, Replay, CountSince, OldestSince, Prune, PruneRows, RowsOf, Asked;
      var now := Now();
      Note(key, Send(now));
      did := [Entry(key, Send(now))];
      if answer.Refused? {
        ghost var wait;
        r, wait := KeepWait(key);
        did := did + [wait];
        AskedAndRefused(GateOf(key).block, clock, key, paid, now, wait);
        return;
      }
      r := if answer.Failed? then Err(NoAnswer) else Ok(answer);
      AskedAndAnswered(GateOf(key).block, clock, key, paid, now, answer);
    }

    /** A refused request: nobody asks again for an hour. */
    method KeepWait(key: Key) returns (r: Result<FetchAnswer, FetchError>, ghost wait: Entry)
      requires Valid() && GateOf(key).phase == Fetching(false, false)
      modifies this`blocks, this`clock, this`trace
      ensures Valid() && trace == old(trace) + [wait] && wait.key == key && wait.event.Wait?
      ensures wait.event.block == Block(wait.event.now + HOUR, ConsumoIndevido)
      ensures r == Err(BlockedUntil(wait.event.block))
    {
      hide Shows, Agrees, Replay, CountSince, OldestSince, Prune, PruneRows, RowsOf, Next;
      var now := Now();
      SetBlockedUntil(key, now + HOUR, ConsumoIndevido);
      wait := Entry(key, Wait(now, Block(now + HOUR, ConsumoIndevido)));
      r := Err(BlockedUntil(Block(now + HOUR, ConsumoIndevido)));
    }

    /** A new process starts with nothing reserved: whoever held a source died with the old one. */
    method Restart()
      requires Valid()
      modifies this`running, this`trace
      ensures Valid() && running == {} && requests == old(requests) && blocks == old(blocks)
      ensures old(trace) <= trace
      ensures forall key :: key in old(running) ==> GateOf(key).phase.Free?
    {
      ghost var freed: set<Key> := {};
      while running != {}
        invariant Valid() && old(trace) <= trace && requests == old(requests) && blocks == old(blocks)
        invariant running + freed == old(running)
        invariant forall key :: key in freed ==> GateOf(key).phase.Free?
        decreases running
      {
        var key :| key in running;
        ghost var was := freed;
        Release(key);
        freed := freed + {key};
      }
    }
  }
}
