/**
 The pull loop (internal/sync/loop.go) and the pull around it (Pull of internal/sync/manager.go), over the
 rows and the world of PullStore. Whatever the world does, a run follows PullProtocol and RequestGate step
 by step, ends for a stated reason, and leaves undone only what something went wrong with.
 */
module PullLoop {
  import opened Wrappers
  import P = PullProtocol
  import opened PullSources
  import G = RequestGate
  import opened SourceStore
  import opened PullStore

  // ----- one run -----

  /** What syncRuntimeState counts committed items under. */
  datatype Heading = Documents | Events | Duplicates | SkippedDocuments | SkippedEvents | UnsupportedItems

  function HeadingOf(o: ItemOutcome): Heading {
    match OutcomeOf(o)
    case SkippedByPolicy => if o.isEvent then SkippedEvents else SkippedDocuments
    case Unsupported => UnsupportedItems
    case Stored => if o.isEvent then Events else Documents
    case Duplicate => Duplicates
  }

  class RunState {
    var lastProcessed: Nsu
    var lastFound: Option<Nsu>
    var maxNsu: Option<Nsu>
    var checked: nat
    var returned: nat
    var documentsInserted: nat
    var eventsInserted: nat
    var stale: nat
    var duplicates: nat
    var documentsSkipped: nat
    var eventsSkipped: nat
    var unsupported: nat
    var completas: nat
    var resumos: nat
    var empty: nat
    var consecutiveEmpty: nat
    var errors: nat

    constructor (state: SyncState)
      ensures lastProcessed == state.lastChecked && lastFound == state.lastFound && returned == 0 && Handled() == 0
      ensures documentsInserted == 0 && completas + resumos == 0 && Seen() == SeeAll([]) && errors == 0
    {
      lastProcessed, lastFound, maxNsu := state.lastChecked, state.lastFound, None;
      checked, returned, documentsInserted, eventsInserted, stale, duplicates := 0, 0, 0, 0, 0, 0;
      documentsSkipped, eventsSkipped, unsupported, completas, resumos := 0, 0, 0, 0, 0;
      empty, consecutiveEmpty, errors := 0, 0, 0;
    }

    ghost function Tally(h: Heading): nat
      reads this
    {
      match h
      case Documents => documentsInserted
      case Events => eventsInserted
      case Duplicates => duplicates
      case SkippedDocuments => documentsSkipped
      case SkippedEvents => eventsSkipped
      case UnsupportedItems => unsupported
    }

    /** Every item that was looked at, by how it ended. */
    ghost function Handled(): nat
      reads this
    {
      stale + documentsInserted + eventsInserted + duplicates + documentsSkipped + eventsSkipped + unsupported
    }

    /** The checkpoint of the run as it stands. */
    ghost function Checkpoint(): Progress
      reads this
    {
      Progress(lastProcessed, lastFound, maxNsu, checked, documentsInserted, empty, consecutiveEmpty, errors, None,
               true)
    }

    ghost function Seen(): Seen
      reads this
    {
      SeenBy(Checkpoint())
    }

    /** progressParams */
    method Params() returns (p: Progress)
      ensures p == Checkpoint()
    {
      return Progress(lastProcessed, lastFound, maxNsu, checked, documentsInserted, empty, consecutiveEmpty, errors,
                      None, true);
    }

    /** One more answer. */
    method Answered(items: nat, max: Nsu)
      modifies this`checked, this`returned, this`maxNsu
      ensures checked == old(checked) + 1 && returned == old(returned) + items
      ensures maxNsu == if max > 0 then Some(max) else old(maxNsu)
    {
      checked := checked + 1;
      returned := returned + items;
      if max > 0 {
        maxNsu := Some(max);
      }
    }

    /** The end of a batch: empty ones in a row are counted, and the cursor may lie past the last item. */
    method Advance(isEmpty: bool, next: Nsu) returns (moved: bool)
      modifies this`empty, this`consecutiveEmpty, this`lastProcessed
      ensures moved <==> next > old(lastProcessed)
      ensures lastProcessed == P.Max(old(lastProcessed), next)
      ensures empty == old(empty) + (if isEmpty then 1 else 0)
      ensures consecutiveEmpty == if isEmpty then old(consecutiveEmpty) + 1 else 0
    {
      if isEmpty {
        empty, consecutiveEmpty := empty + 1, consecutiveEmpty + 1;
      } else {
        consecutiveEmpty := 0;
      }
      moved := next > lastProcessed;
      if moved {
        lastProcessed := next;
      }
    }

    /** Counts one committed item under its heading and no other. */
    method Count(o: ItemOutcome, nsu: Nsu, found: Option<Nsu>)
      modifies this
      ensures lastProcessed == nsu && lastFound == found
      ensures forall h :: Tally(h) == old(Tally(h)) + if h == HeadingOf(o) then 1 else 0
      ensures documentsInserted == old(documentsInserted) + if o.inserted && !o.isEvent then 1 else 0
      ensures stale == old(stale) && Handled() == old(Handled()) + 1 && returned == old(returned)
      ensures SameBatch(Checkpoint(), old(Checkpoint()))
      ensures errors == old(errors)
      ensures o.isEvent || o.skippedByPolicy || o.unsupported ==> completas == old(completas) && resumos == old(resumos)
      ensures !(o.isEvent || o.skippedByPolicy || o.unsupported) ==>
                if o.partial then completas == old(completas) && resumos == old(resumos) + 1
                else completas == old(completas) + 1 && resumos == old(resumos)
    {
      if o.skippedByPolicy && o.isEvent {
        eventsSkipped := eventsSkipped + 1;
      } else if o.skippedByPolicy {
        documentsSkipped := documentsSkipped + 1;
      } else if o.unsupported {
        unsupported := unsupported + 1;
      } else if o.inserted && o.isEvent {
        eventsInserted := eventsInserted + 1;
      } else if o.inserted {
        documentsInserted := documentsInserted + 1;
      } else {
        duplicates := duplicates + 1;
      }
      if !o.isEvent && !o.skippedByPolicy && !o.unsupported {
        if o.partial {
          resumos := resumos + 1;
        } else {
          completas := completas + 1;
        }
      }
      lastProcessed, lastFound := nsu, found;
    }
  }

  // ----- failures and results -----

  datatype Kind = FetchError | ProcessError | PersistError | WaitNotRecorded | NotStarted

  /** canceled: the cause is the caller's cancelled context. */
  datatype Failure = Failure(kind: Kind, canceled: bool)

  /** classifySyncError */
  function Classified(f: Failure): (r: (Status, StopReason)) {
    if f.canceled then (Interrupted, ContextCanceled)
    else if f.kind.FetchError? then (Status.Failed, FetchFailed)
    else (Status.Failed, ProcessFailed)
  }

  /** The run row tells how the run ended, with its last counters. */
  predicate Told(run: Run, p: Progress, stop: StopReason, err: Option<Failure>) {
    && run.checked == p.checked && run.documentsFound == p.documentsFound && run.empty == p.empty
    && run.consecutiveEmpty == p.consecutiveEmpty && run.errors == p.errors && run.lastFound == p.lastFound
    && match err
       case None => run.status == Completed && run.stopReason == Some(stop)
       case Some(f) => ToldAs(run, f)
  }

  /** A cancelled run is interrupted; any other error fails it, and only a refused query is a fetch_failed. */
  predicate ToldAs(run: Run, f: Failure) {
    && run.status == (if f.canceled then Interrupted else Status.Failed)
    && run.stopReason == Some(if f.canceled then ContextCanceled
                              else if f.kind.FetchError? then FetchFailed
                              else ProcessFailed)
  }

  datatype PullError =
    | SourceBlocked(block: G.Block)
    | AlreadyRunning
    | NoCertificateForPull
    | SyncFailed(failure: Failure)

  /** The item in front was committed with its checkpoint and is no longer owed. */
  predicate MovedPast(before: P.Proto, after: P.Proto, s: SyncState, t: SyncState, run: Run, ran: Run, p: Progress,
                      o: ItemOutcome) {
    && before.phase.InBatch? && before.phase.todo != []
    && after.phase == before.phase.(todo := before.phase.todo[1..], poison := false)
    && var q := p.(documentsFound := p.documentsFound + if o.inserted && !o.isEvent then 1 else 0);
       ran == Recorded(run, q) && t == Checkpointed(s, q).(failures := t.failures)
  }

  /** last_found_nsu only grows. */
  function Found(found: Option<Nsu>, nsu: Nsu): (r: Option<Nsu>)
    ensures r.Some? && r.value >= nsu && (found.Some? ==> r.value >= found.value)
    ensures r == Some(nsu) || r == found
  {
    if found.None? || nsu > found.value then Some(nsu) else found
  }

  /** What is found once the items above the cursor are handled. */
  function FoundOver(found: Option<Nsu>, items: seq<Item>, cursor: Nsu): Option<Nsu> {
    if items == [] then found
    else
      var before := FoundOver(found, items[..|items| - 1], cursor);
      var nsu := items[|items| - 1].nsu;
      if nsu > cursor then Found(before, nsu) else before
  }

  /** The counters of answers: how many, how many of them empty, how many of those in a row, and max NSU. */
  datatype Seen = Seen(checked: nat, empty: nat, inARow: nat, maxNsu: Option<Nsu>)

  function SeenBy(p: Progress): Seen {
    Seen(p.checked, p.empty, p.consecutiveEmpty, p.maxNsu)
  }

  function See(s: Seen, b: SourceBatch): Seen {
    var isEmpty := b.batch.items == [];
    Seen(s.checked + 1, if isEmpty then s.empty + 1 else s.empty, if isEmpty then s.inARow + 1 else 0,
         if b.maxNsu > 0 then Some(b.maxNsu) else s.maxNsu)
  }

  function SeeAll(answers: seq<SourceBatch>): Seen {
    if answers == [] then Seen(0, 0, 0, None) else See(SeeAll(answers[..|answers| - 1]), answers[|answers| - 1])
  }

  lemma SeeMore(answers: seq<SourceBatch>, b: SourceBatch)
    ensures SeeAll(answers + [b]) == See(SeeAll(answers), b)
  {
    assert (answers + [b])[..|answers|] == answers;
  }

  /** An item does not touch the counters of answers. */
  predicate SameBatch(p: Progress, q: Progress) {
    SeenBy(p) == SeenBy(q)
  }

  /** The answer says that there is nothing more for now. */
  predicate CatchesUp(b: SourceBatch) {
    b.batch.done && (b.stopReason == Some(EmptyLimit) || b.stopReason == Some(CaughtUp))
  }

  predicate EndsCaughtUp(answers: seq<SourceBatch>) {
    answers != [] &&
    var b := answers[|answers| - 1];
    b.batch.done && b.stopReason in {Some(EmptyLimit), Some(CaughtUp)}
  }

  /** The initial sync is marked, for this source alone, exactly when it was not and this run caught up. */
  predicate Marked(before: map<Key, Time>, after: map<Key, Time>, key: Key, caughtUp: bool) {
    if caughtUp && key !in before then key in after && after == before[key := after[key]] else after == before
  }

  // ----- waits -----

  /** The wait that came with the answer is among what the gate recorded. */
  predicate WaitKept(key: Key, b: SourceBatch, did: seq<Entry>) {
    b.waitUntil.Some? ==>
      exists i :: 0 <= i < |did| && did[i].key == key && did[i].event.Wait?
                  && did[i].event.block == G.Block(b.waitUntil.value, ReasonOf(b.stopReason))
  }

  function SendsOf(entries: seq<Entry>, key: Key): nat {
    if entries == [] then 0
    else
      var e := entries[|entries| - 1];
      SendsOf(entries[..|entries| - 1], key) + if e.key == key && e.event.Send? then 1 else 0
  }

  lemma {:induction false} SendsTogether(a: seq<Entry>, b: seq<Entry>, key: Key)
    ensures SendsOf(a + b, key) == SendsOf(a, key) + SendsOf(b, key)
  {
    if b == [] {
      assert a + b == a;
    } else {
      SendsTogether(a, b[..|b| - 1], key);
      assert (a + b)[..|a + b| - 1] == a + b[..|b| - 1];
    }
  }

  /**
   Between the two traces every wait of these answers was recorded, and where requests are budgeted each
   answer has a request of its own that was sent.
   */
  predicate AskedAndKept(key: Key, answers: seq<SourceBatch>, before: seq<Entry>, after: seq<Entry>) {
    && before <= after && (forall k :: 0 <= k < |answers| ==> WaitKept(key, answers[k], after[|before|..]))
    && (!key.source.NFSe? ==> SendsOf(after[|before|..], key) >= |answers|)
  }

  /**
   The block an answer with a wait leaves behind: until it ends no pull begins, and no lookup by chave either
   after consumo_indevido.
   */
  ghost predicate BlockedAsTold(block: Option<G.Block>, b: SourceBatch) {
    b.waitUntil.Some? ==>
      && (forall t :: G.Blocked(block, t, false) <==> t < b.waitUntil.value)
      && (forall t :: G.Blocked(block, t, true) <==> t < b.waitUntil.value && b.stopReason == Some(ConsumoIndevido))
  }

  /** The last of these answers has left its block. */
  ghost predicate LastTold(block: Option<G.Block>, answers: seq<SourceBatch>) {
    answers == [] || BlockedAsTold(block, answers[|answers| - 1])
  }

  lemma NothingTold(block: Option<G.Block>)
    ensures LastTold(block, [])
  {
  }

  lemma ToldByReason(source: Source, now: Time, b: SourceBatch, block: Option<G.Block>)
    requires Shaped(source, now, b)
    requires b.waitUntil.Some? ==> block == Some(G.Block(b.waitUntil.value, ReasonOf(b.stopReason)))
    ensures BlockedAsTold(block, b)
  {
  }

  /** No answer so far asked to wait. */
  predicate NoneWaits(answers: seq<SourceBatch>) {
    answers == [] || answers[|answers| - 1].waitUntil.None?
  }

  lemma ToldSince(block: Option<G.Block>, answers: seq<SourceBatch>, brought: seq<SourceBatch>)
    requires NoneWaits(answers) && LastTold(block, brought)
    ensures LastTold(block, answers + brought)
  {
    if brought == [] {
      assert answers + brought == answers;
    }
  }

  /**
   A lookup by chave that comes next is never refused for the wait after catching up, and always for
   consumo_indevido until that wait ends.
   */
  lemma LookupAfterPull(block: Option<G.Block>, answers: seq<SourceBatch>, after: Option<G.Block>, clock: Time,
                        did: seq<Entry>, certificate: bool, answer: FetchAnswer, r: Result<FetchAnswer, FetchError>)
    requires answers != [] && LastTold(block, answers) && answers[|answers| - 1].waitUntil.Some?
    requires LookedUp(block, after, clock, did, certificate, answer, r)
    ensures var b := answers[|answers| - 1];
            && (b.stopReason != Some(ConsumoIndevido) ==> did != [])
            && (b.stopReason == Some(ConsumoIndevido) && did != [] ==> did[0].event.now >= b.waitUntil.value)
            && (b.stopReason == Some(ConsumoIndevido) && did == [] ==> clock < b.waitUntil.value)
  {
    hide Asked;
  }

  lemma NoWaits(key: Key, before: seq<Entry>, after: seq<Entry>)
    requires before <= after
    ensures AskedAndKept(key, [], before, after)
  {
  }

  lemma WaitKeptMore(key: Key, b: SourceBatch, earlier: seq<Entry>, did: seq<Entry>, later: seq<Entry>)
    requires WaitKept(key, b, did)
    ensures WaitKept(key, b, earlier + did + later)
  {
    if b.waitUntil.Some? {
      var i :| 0 <= i < |did| && did[i].key == key && did[i].event.Wait?
               && did[i].event.block == G.Block(b.waitUntil.value, ReasonOf(b.stopReason));
      assert (earlier + did + later)[|earlier| + i] == did[i];
    }
  }

  lemma NewAnswers(before: seq<SourceBatch>, after: seq<SourceBatch>, r: Result<SourceBatch, Failure>)
    ensures r.Ok? && after == before + [r.value] ==> after[|before|..] == [r.value]
    ensures after == before ==> after[|before|..] == []
  {
  }

  lemma OneWait(key: Key, b: SourceBatch, now: Time, before: seq<Entry>, sent: seq<Entry>, after: seq<Entry>)
    requires before <= sent && (!key.source.NFSe? ==> SendsOf(sent[|before|..], key) >= 1)
    requires after == sent + if b.waitUntil.Some? then
                               [Entry(key, G.Wait(now, G.Block(b.waitUntil.value, ReasonOf(b.stopReason))))]
                             else []
    ensures AskedAndKept(key, [b], before, after)
  {
    var did, wait := after[|before|..], after[|sent|..];
    assert did == sent[|before|..] + wait;
    SendsTogether(sent[|before|..], wait, key);
    if b.waitUntil.Some? {
      assert did[|sent| - |before|].event.Wait?;
    }
  }

  lemma OneSend(trace: seq<Entry>, key: Key, now: Time)
    ensures SendsOf((trace + [Entry(key, G.Send(now))])[|trace|..], key) == 1
  {
    var sent := (trace + [Entry(key, G.Send(now))])[|trace|..];
    assert sent == [Entry(key, G.Send(now))] && sent[..0] == [];
  }

  /** Two stretches one after the other keep the waits of both. */
  lemma WaitsTogether(key: Key, a: seq<SourceBatch>, b: seq<SourceBatch>, t0: seq<Entry>, t1: seq<Entry>,
                      t2: seq<Entry>)
    requires AskedAndKept(key, a, t0, t1) && AskedAndKept(key, b, t1, t2)
    ensures AskedAndKept(key, a + b, t0, t2)
  {
    hide WaitKept;
    var first, second := t1[|t0|..], t2[|t1|..];
    assert t2[|t0|..] == [] + first + second && t2[|t0|..] == first + second + [];
    assert t2[|t0|..] == first + second;
    SendsTogether(first, second, key);
    forall k | 0 <= k < |a + b|
      ensures WaitKept(key, (a + b)[k], t2[|t0|..])
    {
      if k < |a| {
        WaitKeptMore(key, a[k], [], first, second);
      } else {
        WaitKeptMore(key, b[k - |a|], first, second, []);
      }
    }
  }

  /** The checkpoint an item is committed with: the run as it stood before it, moved past it. */
  function ItemCheckpoint(p: Progress, nsu: Nsu, documents: nat): Progress {
    p.(lastProcessed := nsu, lastFound := Found(p.lastFound, nsu), documentsFound := documents)
  }

  /** A successful checkpoint clears the last error, and the last maximum NSU known stays known. */
  predicate Cleared(s: SyncState, t: SyncState, maxNsu: Option<Nsu>) {
    t.lastError.None? && t.maxNsu == if maxNsu.Some? then maxNsu else s.maxNsu
  }

  predicate SameCheckpoint(s: SyncState, t: SyncState) {
    t == s.(failures := t.failures)
  }

  /** The one commit of an item, with the third failure in a row before it when it was given up. */
  predicate ItemDone(before: seq<P.Event>, after: seq<P.Event>, nsu: Nsu, outcome: P.Outcome) {
    || after == before + [P.Done(P.Commit(nsu, outcome))]
    || (outcome.Unsupported? && after == before + [P.Event.Failed(nsu)] + [P.Done(P.Commit(nsu, outcome))])
  }

  /** No commit: at most one more failure is recorded. */
  predicate ItemStopped(before: seq<P.Event>, after: seq<P.Event>, nsu: Nsu) {
    after == before || after == before + [P.Event.Failed(nsu)]
  }

  /** The run stopped at an unreadable item whose streak of failures is still short of three. */
  predicate StoppedUnreadable(before: Log, after: Log, failures: P.Failures) {
    && |after.unreadable| > |before.unreadable| && failures.FailedAt?
    && failures.nsu == after.unreadable[|after.unreadable| - 1] && failures.attempts < 3
  }

  /**
   The failure tells its cause: a refused query is a fetch error, a cancel is a cancelled run, and only what a
   cancel can end (a wait of the loop, a query, a transaction but the one of a wait) counts as cancelled.
   */
  predicate Blamed(err: Option<Failure>, before: Log, after: Log) {
    match err
    case None => after.refusals == before.refusals && after.cancels == before.cancels
    case Some(f) =>
      && (f.kind.FetchError? <==> after.refusals > before.refusals)
      && (after.cancels > before.cancels ==> f.canceled)
      && (f.canceled ==> || after.cancels > before.cancels || after.refusals > before.refusals
                         || after.rollbacks > before.rollbacks)
      && (f.kind.WaitNotRecorded? ==> !f.canceled)
  }

  function ErrorOf<T>(r: Result<T, Failure>): Option<Failure> {
    if r.Err? then Some(r.error) else None
  }

  /** Why a stretch failed is why the whole did. */
  lemma StoppedTogether(l: Log, l': Log, l'': Log, state: Option<SyncState>)
    requires Grows(l, l') && state.Some?
    requires Disturbed(l', l'') || StoppedUnreadable(l', l'', state.value.failures)
    ensures Disturbed(l, l'') || StoppedUnreadable(l, l'', state.value.failures)
  {
  }

  lemma StoppedByCancel(l: Log, l': Log, l'': Log)
    requires Grows(l, l') && l'' == l'.(cancels := l'.cancels + 1)
    ensures Disturbed(l, l'')
  {
  }

  lemma StillNothing(h: seq<P.Event>, l: Log)
    ensures WithinRun(h, h) && Grows(l, l)
  {
  }

  /** Items in the answers of a run. */
  function ItemsIn(answers: seq<SourceBatch>): nat {
    if answers == [] then 0 else ItemsIn(answers[..|answers| - 1]) + |answers[|answers| - 1].batch.items|
  }

  lemma ItemsInNothing()
    ensures ItemsIn([]) == 0
  {
  }

  lemma ItemsInAppend(answers: seq<SourceBatch>, b: SourceBatch)
    ensures ItemsIn(answers + [b]) == ItemsIn(answers) + |b.batch.items|
  {
    assert (answers + [b])[..|answers|] == answers;
  }

  /** The request that would come next finds the budget spent. */
  predicate SpentLast(before: seq<Entry>, trace: seq<Entry>, key: Key) {
    |trace| > |before| && trace[|trace| - 1].key == key && trace[|trace| - 1].event.Exhaust?
  }

  /** The last answer, asked for at this cursor, was handled to its checkpoint and ends the run for this reason. */
  predicate AnswerEnds(stop: StopReason, answers: seq<SourceBatch>, history: seq<P.Event>, at: Nsu, stored: Nsu) {
    && answers != []
    && var b := answers[|answers| - 1];
       && P.Finished(history, at, b.batch) && b.batch.next <= stored
       && if b.batch.done then b.stopReason == Some(stop) else stop.EmptyLimit? && b.batch.next <= at
  }

  /** How one turn of the loop ends. */
  datatype Turn = Fails(failure: Failure) | Spent | Answered(b: SourceBatch)

  // ----- the service -----

  class SyncService {
    const db: Database
    const gate: Store
    const key: Key

    constructor (db: Database, gate: Store, key: Key)
      requires db.world.source == key.source
      ensures this.db == db && this.gate == gate && this.key == key
    {
      this.db, this.gate, this.key := db, gate, key;
    }

    ghost predicate Valid()
      reads this, db, gate
    {
      db.Valid() && gate.Valid() && db.world.source == key.source
    }

    /** The stored rows and the counters in memory agree. */
    ghost predicate InRun(rs: RunState)
      reads this, db, rs
    {
      && db.Valid() && db.state.Some?
      && rs.lastProcessed == db.state.value.lastChecked && rs.lastFound == db.state.value.lastFound
      && rs.documentsInserted == db.run.documentsFound
    }

    /** The rows hold the run as it stands. */
    ghost predicate WroteDown(rs: RunState)
      reads this, db, rs
    {
      && db.state.Some? && db.state.value.lastChecked == rs.lastProcessed
      && db.state.value.emptyStreak == rs.consecutiveEmpty
      && db.run.checked == rs.checked && db.run.empty == rs.empty
      && db.run.consecutiveEmpty == rs.consecutiveEmpty && db.run.errors == rs.errors
    }

    ghost predicate Holding(ready: bool)
      reads this, gate
      requires gate.Valid()
    {
      !key.source.NFSe? ==> gate.GateOf(key).phase == G.Pulling(ready, false)
    }

    /** The items of the batch in progress still to be handled. */
    ghost predicate Owes(cursor: Nsu, todo: seq<Item>, batch: P.Batch)
      reads this, db
      requires db.Valid()
    {
      && db.Proto().phase == P.InBatch(cursor, todo, batch.next, batch.done, false)
      && P.LastAnswer(db.history) == Some(batch)
    }

    /** Records the failure, and gives the item up as unsupported exactly from the third in a row. */
    method SkipPoisonItem(item: Item, progress: Progress) returns (r: Result<ItemOutcome, Failure>)
      requires db.Valid() && db.state.Some? && P.Allowed(db.Proto(), P.Event.Failed(item.nsu))
      requires progress.lastProcessed == item.nsu
      modifies db, db.world
      ensures db.Valid() && db.state.Some?
      ensures db.world.log == old(db.world.log).(rollbacks := db.world.log.rollbacks)
      ensures db.world.log.rollbacks >= old(db.world.log).rollbacks
      ensures r.Ok? ==>
                && r.value == Flags(false, item.isEvent, false, true, false) && db.world.log == old(db.world.log)
                && db.history
                     == old(db.history) + [P.Event.Failed(item.nsu)] + [P.Done(P.Commit(item.nsu, P.Unsupported))]
                && MovedPast(old(db.Proto()), db.Proto(), old(db.state).value, db.state.value, old(db.run), db.run,
                             progress, r.value)
      ensures r.Err? ==>
                && r.error.kind.ProcessError? && db.run == old(db.run)
                && SameCheckpoint(old(db.state).value, db.state.value)
                && ItemStopped(old(db.history), db.history, item.nsu)
      ensures db.world.log.rollbacks == old(db.world.log).rollbacks ==>
                && (r.Ok? <==> P.Again(old(db.Proto()).failures, item.nsu) >= 3)
                && (r.Err? ==> !r.error.canceled && db.history == old(db.history) + [P.Event.Failed(item.nsu)])
                && (r.Err? ==>
                      db.state.value.failures == P.FailedAt(item.nsu, P.Again(old(db.Proto()).failures, item.nsu)))
    {
      hide P.Replay;
      var recorded, attempts := db.RecordItemFailure(item.nsu);
      if recorded.DbFailed? {
        return Err(Failure(ProcessError, recorded.canceled));
      }
      if attempts < P.MAX_ITEM_ATTEMPTS {
        return Err(Failure(ProcessError, false));
      }
      var outcome: ItemOutcome := Flags(false, item.isEvent, false, true, false);
      var committed := db.ApplyWithProgress(progress, outcome);
      if committed.DbFailed? {
        return Err(Failure(ProcessError, committed.canceled));
      }
      return Ok(outcome);
    }

    /** The source's part: reads the item and commits it once, or says why not. */
    method ReadAndCommit(item: Item, progress: Progress) returns (reading: Reading, r: Result<ItemOutcome, Failure>)
      requires db.Valid() && db.state.Some? && progress.lastProcessed == item.nsu
      requires P.Allowed(db.Proto(), P.Event.Failed(item.nsu))
      modifies db, db.world
      ensures db.Valid() && db.state.Some?
      ensures r.Ok? ==>
                && reading == Ready(r.value) && db.world.log == old(db.world.log)
                && db.history == old(db.history) + [P.Done(P.Commit(item.nsu, OutcomeOf(r.value)))]
                && MovedPast(old(db.Proto()), db.Proto(), old(db.state).value, db.state.value, old(db.run), db.run,
                             progress, r.value)
      ensures r.Err? ==>
                && r.error.kind.ProcessError?
                && db.run == old(db.run) && db.state == old(db.state) && db.history == old(db.history)
      ensures r.Err? ==>
                var log := old(db.world.log);
                match reading
                case Ready(_) => db.world.log == log.(rollbacks := log.rollbacks + 1)
                case Broken(canceled) =>
                  && r.error.canceled == canceled
                  && db.world.log == if canceled then log.(cancels := log.cancels + 1)
                                     else log.(broken := log.broken + 1)
                case Unreadable => db.world.log == log.(unreadable := log.unreadable + [item.nsu]) && !r.error.canceled
    {
      hide P.Replay;
      reading := db.world.Read(item);
      match reading {
        case Ready(o) =>
          var committed := db.ApplyWithProgress(progress, o);
          r := if committed.DbOk? then Ok(o) else Err(Failure(ProcessError, committed.canceled));
        case Broken(canceled) =>
          r := Err(Failure(ProcessError, canceled));
        case Unreadable =>
          r := Err(Failure(ProcessError, false));
      }
    }

    /** Keeps the error with the run; the cursor stays where it is. */
    method KeepError(rs: RunState) returns (r: DbResult)
      requires db.Valid() && db.state.Some? && rs.lastProcessed == db.state.value.lastChecked
      requires rs.documentsInserted == db.run.documentsFound
      modifies db`state, db`run, db.world
      ensures db.Valid() && db.state.Some? && rs.documentsInserted == db.run.documentsFound
      ensures db.run.status == old(db.run.status)
      ensures db.state.value.lastChecked == old(db.state).value.lastChecked
      ensures db.state.value.failures == old(db.state).value.failures
      ensures r.DbOk? ==>
                var kept := rs.Checkpoint().(markSuccess := false, errorCode := Some("process_error"));
                && db.state.value == Checkpointed(old(db.state).value, kept) && db.run == Recorded(old(db.run), kept)
                && db.world.log == old(db.world.log)
                && db.state.value.lastError == Some("process_error") && db.run.errors == rs.errors
      ensures r.DbFailed? ==> db.world.log == old(db.world.log).(rollbacks := old(db.world.log).rollbacks + 1)
    {
      var kept := rs.Params();
      r := db.PersistProgress(kept.(markSuccess := false, errorCode := Some("process_error")));
    }

    /** Hands one fresh item to the source and counts it, or ends the run with the cursor before it. */
    method ProcessItem(item: Item, rs: RunState, ghost cursor: Nsu, ghost rest: seq<Item>, ghost batch: P.Batch)
      returns (err: Option<Failure>, ghost outcome: P.Outcome)
      requires InRun(rs) && Owes(cursor, [item] + rest, batch)
      modifies db, db.world, rs
      ensures db.Valid() && db.state.Some? && rs.documentsInserted == db.run.documentsFound
      ensures db.run.status == old(db.run.status)
      ensures Tracked(old(db.history), old(db.world.log), db.history, db.world.log)
      ensures WithinRun(old(db.history), db.history)
      ensures db.world.log.answers == old(db.world.log).answers
      ensures err.None? ==> InRun(rs) && Owes(cursor, rest, batch) && rs.lastProcessed == item.nsu
      ensures err.None? ==> rs.Handled() == old(rs.Handled()) + 1 && rs.returned == old(rs.returned)
      ensures err.None? ==>
                && rs.lastFound == Found(old(rs.lastFound), item.nsu)
                && SameBatch(rs.Checkpoint(), old(rs.Checkpoint()))
                && rs.errors - old(rs.errors) == |db.world.log.unreadable| - |old(db.world.log).unreadable|
                && var p := ItemCheckpoint(old(rs.Checkpoint()), item.nsu, rs.documentsInserted);
                   && db.run == Recorded(old(db.run), p)
                   && db.state.value == Checkpointed(old(db.state).value, p).(failures := db.state.value.failures)
      ensures err.Some? && !err.value.canceled ==> rs.errors == old(rs.errors) + 1
      // A cancel while the item is read is not an error of the item.
      ensures db.world.log.cancels > old(db.world.log).cancels ==>
                && err.Some? && err.value.canceled && rs.errors == old(rs.errors)
                && db.run == old(db.run) && db.state == old(db.state) && db.history == old(db.history)
      ensures err.Some? && !err.value.canceled && db.world.log.rollbacks == old(db.world.log).rollbacks ==>
                db.state.value.lastError == Some("process_error") && db.run.errors == rs.errors
      ensures err.None? ==> ItemDone(old(db.history), db.history, item.nsu, outcome)
      ensures Blamed(err, old(db.world.log), db.world.log)
      ensures err.Some? ==>
                && ItemStopped(old(db.history), db.history, item.nsu)
                && db.state.value.lastChecked == old(db.state).value.lastChecked
                && (|| Disturbed(old(db.world.log), db.world.log)
                    || StoppedUnreadable(old(db.world.log), db.world.log, db.state.value.failures))
    {
      hide P.Replay, P.FailedNsus, P.Settled, P.LastAnswer;
      var found := Found(rs.lastFound, item.nsu);
      var progress := rs.Params();
      progress := progress.(lastProcessed := item.nsu, lastFound := found);
      assert ([item] + rest)[0] == item && ([item] + rest)[1..] == rest;
      outcome := P.Unsupported;
      var reading, r := ReadAndCommit(item, progress);
      if r.Ok? {
        outcome := OutcomeOf(r.value);
        TrackedEvent(old(db.history), P.Done(P.Commit(item.nsu, outcome)), db.world.log);
        P.LastAnswerAppend(old(db.history), P.Done(P.Commit(item.nsu, outcome)));
        rs.Count(r.value, item.nsu, found);
        return None, outcome;
      }
      if r.error.canceled {
        TrackedNothing(db.history, old(db.world.log), db.world.log);
        return Some(r.error), outcome;
      }
      rs.errors := rs.errors + 1;
      err := GiveUpOrKeep(item, progress, rs, reading.Unreadable?, r.error, cursor, rest, batch, old(db.world.log),
                          old(rs.Checkpoint()));
    }

    /** What follows a failed item: an unreadable one may be given up and counted, else the error is kept. */
    method GiveUpOrKeep(item: Item, progress: Progress, rs: RunState, unreadable: bool, error: Failure,
                        ghost cursor: Nsu, ghost rest: seq<Item>, ghost batch: P.Batch, ghost log: Log,
                        ghost before: Progress) returns (err: Option<Failure>)
      requires InRun(rs) && Owes(cursor, [item] + rest, batch)
      requires rs.Checkpoint() == before.(errors := before.errors + 1)
      requires progress == ItemCheckpoint(before, item.nsu, before.documentsFound)
      requires error.kind.ProcessError? && !error.canceled
      requires if unreadable then db.world.log == log.(unreadable := log.unreadable + [item.nsu])
               else || db.world.log == log.(broken := log.broken + 1)
                    || db.world.log == log.(rollbacks := log.rollbacks + 1)
      modifies db, db.world, rs
      ensures db.Valid() && db.state.Some? && rs.documentsInserted == db.run.documentsFound
      ensures db.run.status == old(db.run.status)
      ensures Tracked(old(db.history), log, db.history, db.world.log) && WithinRun(old(db.history), db.history)
      ensures db.world.log.answers == log.answers
      ensures err.None? ==> InRun(rs) && Owes(cursor, rest, batch) && rs.lastProcessed == item.nsu
      ensures err.None? ==> rs.Handled() == old(rs.Handled()) + 1 && rs.returned == old(rs.returned)
      ensures err.None? ==> ItemDone(old(db.history), db.history, item.nsu, P.Unsupported)
      ensures err.None? ==>
                && rs.lastFound == Found(before.lastFound, item.nsu) && SameBatch(rs.Checkpoint(), before)
                && db.world.log.unreadable == log.unreadable + [item.nsu]
                && var p := ItemCheckpoint(before, item.nsu, rs.documentsInserted);
                   && db.run == Recorded(old(db.run), p)
                   && db.state.value == Checkpointed(old(db.state).value, p).(failures := db.state.value.failures)
      ensures rs.errors == before.errors + 1
      ensures err.Some? && !err.value.canceled && db.world.log.rollbacks == log.rollbacks ==>
                db.state.value.lastError == Some("process_error") && db.run.errors == rs.errors
      ensures Blamed(err, log, db.world.log) && db.world.log.cancels == log.cancels
      ensures err.Some? ==>
                && ItemStopped(old(db.history), db.history, item.nsu)
                && db.state.value.lastChecked == old(db.state).value.lastChecked
                && (Disturbed(log, db.world.log) || StoppedUnreadable(log, db.world.log, db.state.value.failures))
    {
      hide P.Replay, P.FailedNsus, P.Settled, P.LastAnswer;
      assert ([item] + rest)[0] == item && ([item] + rest)[1..] == rest;
      ghost var history := db.history;
      ghost var commit := P.Commit(item.nsu, P.Unsupported);
      if !unreadable {
        var persisted := KeepError(rs);
        TrackedNothing(db.history, log, db.world.log);
        return Some(if persisted.DbFailed? then Failure(ProcessError, persisted.canceled) else error);
      }
      var r := SkipPoisonItem(item, progress);
      if r.Ok? {
        TrackedGivenUp(history, item.nsu, commit, log, db.world.log);
        P.LastAnswerAppend(history, P.Event.Failed(item.nsu));
        P.LastAnswerAppend(history + [P.Event.Failed(item.nsu)], P.Done(commit));
        rs.Count(r.value, item.nsu, progress.lastFound);
        return None;
      }
      if db.world.log.rollbacks == log.rollbacks {
        TrackedFailure(history, item.nsu, log, db.world.log);
      }
      var persisted := KeepError(rs);
      return Some(if persisted.DbFailed? then Failure(ProcessError, persisted.canceled) else r.error);
    }

    /** Sends the paid request; Err says whether it was cancelled. */
    method SendQuery(cursor: Nsu) returns (r: Result<SourceBatch, bool>)
      requires Valid() && Holding(true)
      modifies gate`clock, gate`trace, db.world
      ensures old(gate.trace) <= gate.trace && gate.clock >= old(gate.clock)
      ensures !key.source.NFSe? ==> SendsOf(gate.trace[|old(gate.trace)|..], key) == 1
      ensures Valid() && Holding(false)
      ensures r.Ok? ==> Shaped(key.source, gate.clock, r.value)
      ensures r.Ok? ==> db.world.log == old(db.world.log).(answers := old(db.world.log).answers + [r.value])
      ensures r.Err? ==> db.world.log == old(db.world.log).(refusals := old(db.world.log).refusals + 1)
    {
      hide Agrees, G.Replay, G.CountSince, G.OldestSince, G.Prune, PruneRows, RowsOf;
      var now := gate.Now();
      if RequestsPerHour(key.source) > 0 {
        gate.Note(key, G.Send(now));
        OneSend(old(gate.trace), key, now);
      }
      now := gate.Now();
      r := db.world.Fetch(cursor, now);
    }

    /** The wait that comes with an answer, recorded outside the caller's context. */
    method RecordWait(b: SourceBatch) returns (r: DbResult)
      requires Valid() && Holding(false) && Shaped(key.source, gate.clock, b)
      modifies gate`blocks, gate`trace, db.world
      ensures gate.clock >= old(gate.clock)
      ensures gate.trace == old(gate.trace) +
                if r.DbOk? && b.waitUntil.Some? then
                  [Entry(key, G.Wait(gate.clock, G.Block(b.waitUntil.value, ReasonOf(b.stopReason))))]
                else []
      ensures Valid() && (b.waitUntil.None? ==> r.DbOk? && Holding(false))
      ensures db.world.log
                == old(db.world.log).(rollbacks := old(db.world.log).rollbacks + if r.DbFailed? then 1 else 0)
      ensures r.DbOk? ==> BlockedAsTold(BlockOf(gate.blocks, key), b)
    {
      hide Agrees, G.Replay, G.CountSince, G.OldestSince, G.Prune, PruneRows, RowsOf, AskedAndKept,
           BlockedAsTold, G.Next, P.Replay;
      r := DbOk;
      if b.waitUntil.Some? {
        r := db.world.Transaction();
        if r.DbOk? {
          gate.SetBlockedUntil(key, b.waitUntil.value, ReasonOf(b.stopReason));
        }
      }
      if r.DbOk? {
        ToldByReason(key.source, gate.clock, b, BlockOf(gate.blocks, key));
      }
    }

    /** Fetches the batch after cursor; the wait it brings is recorded before anything else. */
    method FetchBatch(cursor: Nsu, rs: RunState)
      returns (r: Result<SourceBatch, Failure>, ghost answer: Option<SourceBatch>)
      requires Valid() && Holding(true) && InRun(rs)
      modifies gate, rs, db.world
      ensures old(gate.trace) <= gate.trace && gate.clock >= old(gate.clock)
      ensures gate.initialSyncDone == old(gate.initialSyncDone)
      ensures Valid() && InRun(rs) && rs.Handled() == old(rs.Handled()) && gate.running == old(gate.running)
      ensures r.Ok? ==> rs.Seen() == old(rs.Seen()).(
                checked := old(rs.Seen()).checked + 1,
                maxNsu := if r.value.maxNsu > 0 then Some(r.value.maxNsu) else old(rs.Seen()).maxNsu)
      ensures rs.errors == old(rs.errors) && rs.lastFound == old(rs.lastFound)
      ensures r.Ok? ==> AskedAndKept(key, [r.value], old(gate.trace), gate.trace)
      ensures r.Err? && !r.error.kind.WaitNotRecorded? ==> db.world.log.answers == old(db.world.log).answers
      ensures Grows(old(db.world.log), db.world.log) && db.world.log.unreadable == old(db.world.log).unreadable
      ensures r.Ok? ==> answer == Some(r.value) && Shaped(key.source, gate.clock, r.value)
      ensures r.Ok? ==> db.world.log == old(db.world.log).(answers := old(db.world.log).answers + [r.value])
      ensures r.Ok? ==> rs.returned == old(rs.returned) + |r.value.batch.items|
      ensures r.Ok? && !r.value.batch.done ==> Holding(false)
      ensures Blamed(ErrorOf(r), old(db.world.log), db.world.log)
      ensures r.Err? ==> Disturbed(old(db.world.log), db.world.log) && (answer.Some? ==> r.error.kind.WaitNotRecorded?)
      ensures (r.Err? ==> !r.error.kind.WaitNotRecorded?) ==>
                LastTold(BlockOf(gate.blocks, key), db.world.log.answers[|old(db.world.log).answers|..])
      ensures answer.Some? && (r.Err? ==> !r.error.kind.WaitNotRecorded?) ==>
                BlockedAsTold(BlockOf(gate.blocks, key), answer.value)
    {
      hide P.Replay, P.Allowed, P.LastAnswer, Agrees, G.Replay, ItemsIn, Shows, AskedAndKept, G.CountSince, PruneRows,
           RowsOf, Checkpointed, Recorded, SendsOf, BlockedAsTold, P.Next, P.Committed;
      var fetched := SendQuery(cursor);
      if fetched.Err? {
        return Err(Failure(FetchError, fetched.error)), None;
      }
      var b := fetched.value;
      answer := Some(b);
      rs.Answered(|b.batch.items|, b.maxNsu);
      ghost var sent := gate.trace;
      var recorded := RecordWait(b);
      r := if recorded.DbOk? then Ok(b) else Err(Failure(WaitNotRecorded, false));
      if recorded.DbOk? {
        OneWait(key, b, gate.clock, old(gate.trace), sent, gate.trace);
      }
    }

    /** One item of an answer: stale at or below the cursor, else processed. */
    method TakeItem(cursor: Nsu, item: Item, rs: RunState, ghost rest: seq<Item>, ghost batch: P.Batch)
      returns (taken: bool, err: Option<Failure>)
      requires InRun(rs) && Owes(cursor, P.Fresh([item] + rest, cursor), batch)
      modifies db, rs, db.world
      ensures db.Valid() && db.state.Some? && rs.documentsInserted == db.run.documentsFound
      ensures db.run.status == old(db.run.status)
      ensures Tracked(old(db.history), old(db.world.log), db.history, db.world.log)
      ensures WithinRun(old(db.history), db.history)
      ensures db.world.log.answers == old(db.world.log).answers
      ensures taken <==> item.nsu > cursor
      ensures err.None? ==> InRun(rs) && Owes(cursor, P.Fresh(rest, cursor), batch)
      ensures err.None? ==> rs.returned == old(rs.returned) && rs.Handled() == old(rs.Handled()) + 1
      ensures err.None? ==> rs.Seen() == old(rs.Seen())
      ensures err.None? ==>
                if taken then Cleared(old(db.state).value, db.state.value, rs.maxNsu) else db.state == old(db.state)
      ensures err.None? ==> rs.lastFound == if taken then Found(old(rs.lastFound), item.nsu) else old(rs.lastFound)
      ensures err.None? ==>
                rs.errors - old(rs.errors) == |db.world.log.unreadable| - |old(db.world.log).unreadable|
      ensures Blamed(err, old(db.world.log), db.world.log)
      ensures err.Some? ==>
                || Disturbed(old(db.world.log), db.world.log)
                || StoppedUnreadable(old(db.world.log), db.world.log, db.state.value.failures)
    {
      hide P.Replay, P.FailedNsus, P.Settled, P.LastAnswer, Tracked;
      assert ([item] + rest)[0] == item && ([item] + rest)[1..] == rest;
      taken, err := item.nsu > cursor, None;
      if taken {
        ghost var outcome;
        err, outcome := ProcessItem(item, rs, cursor, P.Fresh(rest, cursor), batch);
      } else {
        TrackedNothing(db.history, db.world.log, db.world.log);
        rs.stale := rs.stale + 1;
      }
    }

    /** Handles the items of an answer in order; those at or below the cursor are stale. */
    method ProcessItems(cursor: Nsu, batch: P.Batch, rs: RunState) returns (processed: bool, err: Option<Failure>)
      requires InRun(rs) && db.Proto().phase == P.AtCursor(cursor)
      modifies db, rs, db.world
      ensures db.Valid() && db.state.Some? && rs.documentsInserted == db.run.documentsFound
      ensures db.run.status == old(db.run.status)
      ensures Tracked(old(db.history), old(db.world.log), db.history, db.world.log)
      ensures WithinRun(old(db.history), db.history)
      ensures db.world.log.answers == old(db.world.log).answers
      ensures err.None? ==> InRun(rs) && Owes(cursor, [], batch) && rs.returned == old(rs.returned)
      ensures err.None? ==> rs.Handled() == old(rs.Handled()) + |batch.items|
      ensures err.None? ==> processed == (P.Fresh(batch.items, cursor) != [])
      ensures err.None? ==> rs.Seen() == old(rs.Seen())
      ensures err.None? ==>
                if processed then Cleared(old(db.state).value, db.state.value, rs.maxNsu) else db.state == old(db.state)
      ensures err.None? ==> rs.lastFound == FoundOver(old(rs.lastFound), batch.items, cursor)
      ensures err.None? ==>
                rs.errors - old(rs.errors) == |db.world.log.unreadable| - |old(db.world.log).unreadable|
      ensures Blamed(err, old(db.world.log), db.world.log)
      ensures err.Some? ==>
                || Disturbed(old(db.world.log), db.world.log)
                || StoppedUnreadable(old(db.world.log), db.world.log, db.state.value.failures)
    {
      hide P.Replay, P.FailedNsus, P.Settled, P.LastAnswer, Tracked, Disturbed, StoppedUnreadable;
      processed, err := false, None;
      var items := batch.items;
      assert items[0..] == items;
      ghost var h, l := db.history, db.world.log;
      BeginBatch(cursor, batch, rs);
      for i := 0 to |items|
        invariant err.None? && InRun(rs) && rs.returned == old(rs.returned)
        invariant Tracked(h, l, db.history, db.world.log) && WithinRun(h, db.history)
        invariant db.world.log.answers == l.answers && Grows(l, db.world.log) && Blamed(None, l, db.world.log)
        invariant db.run.status == old(db.run.status)
        invariant Owes(cursor, P.Fresh(items[i..], cursor), batch)
        invariant rs.Handled() == old(rs.Handled()) + i
        invariant if processed then Cleared(old(db.state).value, db.state.value, rs.maxNsu)
                  else db.state == old(db.state)
        invariant if processed then P.Fresh(items, cursor) != []
                  else P.Fresh(items[i..], cursor) == P.Fresh(items, cursor)
        invariant rs.Seen() == old(rs.Seen()) && rs.lastFound == FoundOver(old(rs.lastFound), items[..i], cursor)
        invariant rs.errors - old(rs.errors) == |db.world.log.unreadable| - |l.unreadable|
      {
        assert items[..i + 1][..i] == items[..i];
        assert items[i..] == [items[i]] + items[i + 1..];
        ghost var h', l' := db.history, db.world.log;
        var taken;
        taken, err := TakeItem(cursor, items[i], rs, items[i + 1..], batch);
        TrackedTogether(h, l, h', l', db.history, db.world.log);
        TrackedGrows(h', l', db.history, db.world.log);
        if err.Some? {
          StoppedTogether(l, l', db.world.log, db.state);
          return;
        }
        processed := processed || taken;
      }
      assert items[..|items|] == items;
    }

    /** The answer enters the history; its items are owed. */
    ghost method BeginBatch(cursor: Nsu, batch: P.Batch, rs: RunState)
      requires InRun(rs) && db.Proto().phase == P.AtCursor(cursor)
      modifies db`history
      ensures InRun(rs) && Owes(cursor, P.Fresh(batch.items, cursor), batch)
      ensures Tracked(old(db.history), db.world.log, db.history, db.world.log)
      ensures WithinRun(old(db.history), db.history)
    {
      hide P.Replay, P.FailedNsus, P.Settled, P.LastAnswer, Tracked;
      TrackedEvent(db.history, P.Answer(batch), db.world.log);
      P.LastAnswerAppend(db.history, P.Answer(batch));
      db.Note(P.Answer(batch));
    }

    /** Moves the run past the batch, in memory and, when an item has not just done so, in the rows. */
    method CheckpointBatch(cursor: Nsu, batch: P.Batch, rs: RunState, processed: bool) returns (err: Option<Failure>)
      requires InRun(rs) && Owes(cursor, [], batch)
      modifies db, rs, db.world
      ensures db.Valid() && db.state.Some? && rs.documentsInserted == db.run.documentsFound
      ensures db.run.status == old(db.run.status)
      ensures rs.Handled() == old(rs.Handled()) && rs.returned == old(rs.returned)
      ensures Tracked(old(db.history), old(db.world.log), db.history, db.world.log)
      ensures WithinRun(old(db.history), db.history)
      ensures err.None? ==> InRun(rs) && rs.lastProcessed == P.Max(old(rs.lastProcessed), batch.next)
      ensures err.None? ==> P.Finished(db.history, cursor, batch) && db.world.log == old(db.world.log)
      ensures err.None? ==>
                db.Proto().phase == if batch.done || batch.next <= cursor then P.Idle else P.AtCursor(batch.next)
      ensures rs.lastFound == old(rs.lastFound) && rs.errors == old(rs.errors)
      ensures rs.Seen() == old(rs.Seen()).(
                empty := old(rs.Seen()).empty + (if batch.items == [] then 1 else 0),
                inARow := if batch.items == [] then old(rs.Seen()).inARow + 1 else 0)
      ensures err.None? ==>
                if !processed || batch.next > old(rs.lastProcessed) then
                  && db.state.value == Checkpointed(old(db.state).value, rs.Checkpoint())
                  && db.run == Recorded(old(db.run), rs.Checkpoint())
                else db.state == old(db.state) && db.run == old(db.run)
      ensures Blamed(err, old(db.world.log), db.world.log)
      ensures err.Some? ==> db.world.log == old(db.world.log).(rollbacks := old(db.world.log).rollbacks + 1)
    {
      hide P.Replay, P.FailedNsus, P.Settled, P.LastAnswer, Tracked;
      var moved := rs.Advance(batch.items == [], batch.next);
      var needed := moved || !processed;
      if needed {
        var progress := rs.Params();
        var persisted := db.PersistProgress(progress);
        if persisted.DbFailed? {
          TrackedNothing(db.history, old(db.world.log), db.world.log);
          return Some(Failure(PersistError, persisted.canceled));
        }
      }
      FinishBatch(cursor, batch);
      return None;
    }

    /** The checkpoint enters the history; the batch is over. */
    ghost method FinishBatch(cursor: Nsu, batch: P.Batch)
      requires P.Replay(db.history).Some? && P.LastAnswer(db.history) == Some(batch)
      requires P.Replay(db.history).value.phase == P.InBatch(cursor, [], batch.next, batch.done, false)
      requires Matches(P.Next(P.Replay(db.history).value, P.Checkpoint), db.state)
      modifies db`history
      ensures db.Valid()
      ensures Tracked(old(db.history), db.world.log, db.history, db.world.log)
      ensures WithinRun(old(db.history), db.history) && P.Finished(db.history, cursor, batch)
      ensures db.Proto().phase == if batch.done || batch.next <= cursor then P.Idle else P.AtCursor(batch.next)
    {
      hide P.Replay, P.FailedNsus, P.Settled, P.LastAnswer, Tracked;
      ghost var h := db.history;
      TrackedEvent(h, P.Checkpoint, db.world.log);
      P.LastAnswerAppend(h, P.Checkpoint);
      db.Note(P.Checkpoint);
      assert db.history[..|db.history| - 1] == h;
    }

    /** The first time a source catches up is remembered. */
    method MarkInitialSync(b: SourceBatch) returns (r: DbResult)
      requires Valid()
      modifies gate`initialSyncDone, gate`clock, db.world
      ensures Valid() && gate.clock >= old(gate.clock) && forall k :: gate.GateOf(k) == old(gate.GateOf(k))
      ensures db.world.log
                == old(db.world.log).(rollbacks := old(db.world.log).rollbacks + if r.DbFailed? then 1 else 0)
      ensures gate.initialSyncDone ==
                if r.DbOk? && EndsCaughtUp([b]) && key !in old(gate.initialSyncDone) then
                  old(gate.initialSyncDone)[key := gate.clock]
                else old(gate.initialSyncDone)
    {
      hide Agrees, G.Replay;
      r := DbOk;
      if CatchesUp(b) && key !in gate.initialSyncDone {
        r := db.world.Transaction();
        if r.DbOk? {
          gate.MarkInitialSyncCompleted(key);
        }
      }
    }

    /** The items of an answer and its checkpoint. */
    method HandleBatch(cursor: Nsu, batch: P.Batch, rs: RunState) returns (err: Option<Failure>)
      requires InRun(rs) && db.Proto().phase == P.AtCursor(cursor)
      modifies db, rs, db.world
      ensures db.Valid() && db.state.Some? && rs.documentsInserted == db.run.documentsFound
      ensures db.run.status == old(db.run.status)
      ensures Tracked(old(db.history), old(db.world.log), db.history, db.world.log)
      ensures WithinRun(old(db.history), db.history)
      ensures db.world.log.answers == old(db.world.log).answers
      ensures err.None? ==> InRun(rs) && rs.returned == old(rs.returned)
      ensures err.None? ==> rs.Handled() == old(rs.Handled()) + |batch.items|
      ensures err.None? ==> P.Finished(db.history, cursor, batch) && batch.next <= db.state.value.lastChecked
      ensures err.None? ==>
                db.Proto().phase == if batch.done || batch.next <= cursor then P.Idle else P.AtCursor(batch.next)
      ensures err.None? ==> rs.lastFound == FoundOver(old(rs.lastFound), batch.items, cursor)
      ensures err.None? ==>
                rs.errors - old(rs.errors) == |db.world.log.unreadable| - |old(db.world.log).unreadable|
      ensures err.None? ==>
                rs.Seen() == old(rs.Seen()).(
                  empty := old(rs.Seen()).empty + (if batch.items == [] then 1 else 0),
                  inARow := if batch.items == [] then old(rs.Seen()).inARow + 1 else 0)
      ensures err.None? ==> Cleared(old(db.state).value, db.state.value, rs.maxNsu)
      // An answer without new items reaches the rows too.
      ensures err.None? && P.Fresh(batch.items, cursor) == [] ==> WroteDown(rs)
      ensures Blamed(err, old(db.world.log), db.world.log)
      ensures err.Some? ==>
                || Disturbed(old(db.world.log), db.world.log)
                || StoppedUnreadable(old(db.world.log), db.world.log, db.state.value.failures)
    {
      hide P.Replay, P.FailedNsus, P.Settled, P.LastAnswer, P.Finished, Tracked, WithinRun;
      ghost var h, l := db.history, db.world.log;
      var processed;
      processed, err := ProcessItems(cursor, batch, rs);
      if err.Some? {
        return;
      }
      ghost var h', l' := db.history, db.world.log;
      err := CheckpointBatch(cursor, batch, rs, processed);
      TrackedTogether(h, l, h', l', db.history, db.world.log);
      TrackedGrows(h, l, h', l');
    }

    /** Fetches one batch after cursor, handles its items and checkpoints the run. */
    method ProcessBatch(cursor: Nsu, rs: RunState)
      returns (r: Result<SourceBatch, Failure>, ghost answer: Option<SourceBatch>)
      requires Valid() && Holding(true) && InRun(rs) && db.Proto().phase == P.AtCursor(cursor)
      requires rs.returned == rs.Handled()
      modifies db, gate, rs, db.world
      ensures old(gate.trace) <= gate.trace && gate.clock >= old(gate.clock)
      ensures Valid() && db.state.Some? && rs.documentsInserted == db.run.documentsFound
      ensures gate.running == old(gate.running)
      ensures db.run.status == old(db.run.status)
      ensures Tracked(old(db.history), old(db.world.log), db.history, db.world.log)
      ensures WithinRun(old(db.history), db.history)
      ensures r.Ok? ==> InRun(rs) && rs.returned == rs.Handled() == old(rs.returned) + |r.value.batch.items|
      ensures r.Ok? ==> P.Finished(db.history, cursor, r.value.batch)
      ensures r.Ok? ==> r.value.batch.next <= db.state.value.lastChecked
      ensures r.Ok? ==> db.world.log.answers == old(db.world.log).answers + [r.value] && answer == Some(r.value)
      ensures r.Ok? ==> (r.value.batch.done <==> r.value.stopReason.Some?) && r.value.stopReason != Some(RateBudget)
      ensures r.Ok? && r.value.waitUntil.Some? ==> r.value.batch.done
      ensures gate.initialSyncDone ==
                if r.Ok? && EndsCaughtUp([r.value]) && key !in old(gate.initialSyncDone) then
                  old(gate.initialSyncDone)[key := gate.clock]
                else old(gate.initialSyncDone)
      ensures r.Ok? ==> rs.Seen() == See(old(rs.Seen()), r.value)
      ensures r.Ok? ==> Cleared(old(db.state).value, db.state.value, rs.maxNsu)
      ensures r.Ok? ==> rs.lastFound == FoundOver(old(rs.lastFound), r.value.batch.items, cursor)
      ensures r.Ok? ==> rs.errors - old(rs.errors) == |db.world.log.unreadable| - |old(db.world.log).unreadable|
      ensures r.Ok? && P.Fresh(r.value.batch.items, cursor) == [] ==> WroteDown(rs)
      ensures (r.Err? ==> !r.error.kind.WaitNotRecorded?) ==>
                AskedAndKept(key, db.world.log.answers[|old(db.world.log).answers|..], old(gate.trace), gate.trace)
      ensures r.Ok? && !r.value.batch.done ==> Holding(false)
      ensures r.Ok? && !r.value.batch.done && r.value.batch.next > cursor ==>
                db.Proto().phase == P.AtCursor(r.value.batch.next)
      ensures Blamed(ErrorOf(r), old(db.world.log), db.world.log)
      ensures r.Err? ==>
                || Disturbed(old(db.world.log), db.world.log)
                || StoppedUnreadable(old(db.world.log), db.world.log, db.state.value.failures)
      ensures (r.Err? ==> !r.error.kind.WaitNotRecorded?) ==>
                LastTold(BlockOf(gate.blocks, key), db.world.log.answers[|old(db.world.log).answers|..])
      ensures answer.Some? && (r.Err? ==> !r.error.kind.WaitNotRecorded?) ==>
                BlockedAsTold(BlockOf(gate.blocks, key), answer.value)
    {
      hide P.Replay, P.FailedNsus, P.Settled, P.LastAnswer, P.Finished, Agrees, G.Replay, Tracked;
      ghost var h, l := db.history, db.world.log;
      r, answer := FetchBatch(cursor, rs);
      ghost var l' := db.world.log;
      TrackedNothing(h, l, l');
      ghost var t := gate.trace;
      NewAnswers(l.answers, l'.answers, r);
      if r.Err? {
        NoWaits(key, old(gate.trace), t);
        return;
      }
      var err := HandleBatch(cursor, r.value.batch, rs);
      TrackedTogether(h, l, h, l', db.history, db.world.log);
      TrackedGrows(h, l', db.history, db.world.log);
      if err.Some? {
        return Err(err.value), answer;
      }
      ghost var h2, l2 := db.history, db.world.log;
      var marked := MarkInitialSync(r.value);
      TrackedNothing(h2, l2, db.world.log);
      TrackedTogether(h, l, h2, l2, db.history, db.world.log);
      if marked.DbFailed? {
        return Err(Failure(PersistError, marked.canceled)), answer;
      }
    }

    /** A cancel is noticed first; then one request is paid for, or the budget is found spent. */
    method PayForRequest() returns (paid: bool, failed: Option<Failure>)
      requires Valid() && Holding(false)
      modifies gate`requests, gate`blocks, gate`clock, gate`trace, db.world
      ensures Valid() && old(gate.trace) <= gate.trace && gate.clock >= old(gate.clock)
      ensures Grows(old(db.world.log), db.world.log)
      ensures db.world.log.unreadable == old(db.world.log).unreadable
      ensures db.world.log.answers == old(db.world.log).answers
      ensures Blamed(failed, old(db.world.log), db.world.log)
      ensures failed.Some? ==> Disturbed(old(db.world.log), db.world.log) && !failed.value.kind.WaitNotRecorded?
      ensures failed.None? ==> db.world.log == old(db.world.log)
      ensures failed.None? && paid ==> Holding(true)
      ensures failed.None? && !paid ==>
                !key.source.NFSe? && SpentLast(old(gate.trace), gate.trace, key)
    {
      hide P.Replay, Agrees, G.Replay, G.CountSince, PruneRows, RowsOf;
      var canceled := db.world.Canceled();
      if canceled {
        return false, Some(Failure(NotStarted, true));
      }
      if RequestsPerHour(key.source) > 0 {
        var read := db.world.Transaction();
        if read.DbFailed? {
          return false, Some(Failure(PersistError, read.canceled));
        }
      }
      paid := gate.SpendRequest(key, RequestsPerHour(key.source));
      failed := None;
    }

    /** One turn of the loop: a cancel, a request that cannot be paid for, or a batch. */
    method Turn(cursor: Nsu, rs: RunState) returns (turn: Turn)
      requires Valid() && Holding(false) && InRun(rs) && db.Proto().phase == P.AtCursor(cursor)
      requires rs.returned == rs.Handled()
      modifies db, gate, rs, db.world
      ensures old(gate.trace) <= gate.trace && gate.clock >= old(gate.clock)
      ensures gate.initialSyncDone ==
                if turn.Answered? && EndsCaughtUp([turn.b]) && key !in old(gate.initialSyncDone) then
                  old(gate.initialSyncDone)[key := gate.clock]
                else old(gate.initialSyncDone)
      ensures Valid() && db.state.Some? && rs.documentsInserted == db.run.documentsFound
      ensures gate.running == old(gate.running)
      ensures db.run.status == old(db.run.status)
      ensures Tracked(old(db.history), old(db.world.log), db.history, db.world.log)
      ensures WithinRun(old(db.history), db.history)
      ensures !(turn.Fails? && turn.failure.kind.WaitNotRecorded?) ==>
                && AskedAndKept(key, db.world.log.answers[|old(db.world.log).answers|..], old(gate.trace), gate.trace)
                && LastTold(BlockOf(gate.blocks, key), db.world.log.answers[|old(db.world.log).answers|..])
      ensures Blamed(if turn.Fails? then Some(turn.failure) else None, old(db.world.log), db.world.log)
      ensures match turn
              case Fails(_) =>
                || Disturbed(old(db.world.log), db.world.log)
                || StoppedUnreadable(old(db.world.log), db.world.log, db.state.value.failures)
              case Spent =>
                && !key.source.NFSe? && SpentLast(old(gate.trace), gate.trace, key)
                && db.world.log.answers == old(db.world.log).answers
                && rs.returned == rs.Handled() == old(rs.returned) && rs.Seen() == old(rs.Seen())
                && rs.errors - old(rs.errors) == |db.world.log.unreadable| - |old(db.world.log).unreadable|
              case Answered(b) =>
                && db.world.log.answers == old(db.world.log).answers + [b]
                && rs.returned == rs.Handled() == old(rs.returned) + |b.batch.items|
                && rs.Seen() == See(old(rs.Seen()), b)
                && rs.errors - old(rs.errors) == |db.world.log.unreadable| - |old(db.world.log).unreadable|
                && P.Finished(db.history, cursor, b.batch) && b.batch.next <= db.state.value.lastChecked
                && (b.batch.done <==> b.stopReason.Some?) && b.stopReason != Some(RateBudget)
                && (b.waitUntil.Some? ==> b.batch.done)
                && (!b.batch.done && b.batch.next > cursor ==>
                      InRun(rs) && Holding(false) && db.Proto().phase == P.AtCursor(b.batch.next))
    {
      hide P.Replay, P.FailedNsus, P.Settled, P.LastAnswer, P.Finished, Agrees, G.Replay, Tracked, AskedAndKept, See,
           StoppedUnreadable, EndsCaughtUp, SpentLast;
      ghost var h, l, t := db.history, db.world.log, gate.trace;
      assert l.answers[|l.answers|..] == [];
      var paid, failed := PayForRequest();
      ghost var l', t' := db.world.log, gate.trace;
      TrackedNothing(h, l, l');
      NoWaits(key, t, t');
      if failed.Some? {
        return Fails(failed.value);
      }
      if !paid {
        return Spent;
      }
      var r, answer := ProcessBatch(cursor, rs);
      TrackedTogether(h, l, h, l', db.history, db.world.log);
      TrackedGrows(h, l', db.history, db.world.log);
      if r.Err? ==> !r.error.kind.WaitNotRecorded? {
        ghost var brought := db.world.log.answers[|l.answers|..];
        WaitsTogether(key, [], brought, t, t', gate.trace);
        assert [] + brought == brought;
      }
      if r.Err? {
        StoppedTogether(l, l', db.world.log, db.state);
      }
      turn := if r.Err? then Fails(r.error) else Answered(r.value);
    }

    /** Batch after batch until the source says stop, the budget is spent, or something fails. */
    method Walk(start: Nsu, rs: RunState) returns (stop: StopReason, err: Option<Failure>, ghost at: Nsu)
      requires Valid() && Holding(false) && InRun(rs) && db.Proto().phase == P.AtCursor(start)
      requires rs.returned == rs.Handled() == 0 && rs.Seen() == SeeAll([]) && rs.errors == 0
      modifies db, gate, rs, db.world
      ensures gate.clock >= old(gate.clock) && old(gate.trace) <= gate.trace
      ensures Valid() && db.state.Some? && rs.documentsInserted == db.run.documentsFound
      ensures gate.running == old(gate.running)
      ensures db.run.status == old(db.run.status)
      ensures Tracked(old(db.history), old(db.world.log), db.history, db.world.log)
      ensures WithinRun(old(db.history), db.history)
      ensures Grows(old(db.world.log), db.world.log)
      ensures !(err.Some? && err.value.kind.WaitNotRecorded?) ==>
                && AskedAndKept(key, db.world.log.answers[|old(db.world.log).answers|..], old(gate.trace), gate.trace)
                && LastTold(BlockOf(gate.blocks, key), db.world.log.answers[|old(db.world.log).answers|..])
      ensures Marked(old(gate.initialSyncDone), gate.initialSyncDone, key,
                     err.None? && EndsCaughtUp(db.world.log.answers[|old(db.world.log).answers|..]))
      ensures var answers := db.world.log.answers[|old(db.world.log).answers|..];
              err.None? ==>
                && rs.returned == rs.Handled() == ItemsIn(answers) && rs.Seen() == SeeAll(answers)
                && rs.errors == |db.world.log.unreadable| - |old(db.world.log).unreadable|
                && if stop.RateBudget? then
                     !key.source.NFSe? && SpentLast(old(gate.trace), gate.trace, key)
                   else AnswerEnds(stop, answers, db.history, at, db.state.value.lastChecked)
      ensures Blamed(err, old(db.world.log), db.world.log)
      ensures err.Some? ==>
                || Disturbed(old(db.world.log), db.world.log)
                || StoppedUnreadable(old(db.world.log), db.world.log, db.state.value.failures)
    {
      hide P.Replay, P.FailedNsus, P.Settled, P.LastAnswer, P.Finished, Agrees, G.Replay, Tracked, ItemsIn, SeeAll, See,
           AskedAndKept, LastTold, BlockOf, WithinRun, Disturbed, StoppedUnreadable, G.CountSince, PruneRows,
           RowsOf, P.Allowed;
      var cursor := start;
      stop, err, at := EmptyLimit, None, start;
      ghost var h, l, t := db.history, db.world.log, gate.trace;
      ghost var answers: seq<SourceBatch> := [];
      TrackedNothing(h, l, l);
      StillNothing(h, l);
      ItemsInNothing();
      assert l.answers[|l.answers|..] == [];
      NoWaits(key, t, t);
      while true
        invariant Valid() && Holding(false) && InRun(rs) && db.Proto().phase == P.AtCursor(cursor)
        invariant stop.EmptyLimit? && err.None? && rs.returned == rs.Handled() && gate.running == old(gate.running)
        invariant db.run.status == old(db.run.status) && t <= gate.trace && gate.clock >= old(gate.clock)
        invariant Tracked(h, l, db.history, db.world.log) && WithinRun(h, db.history) && Grows(l, db.world.log)
        invariant Blamed(None, l, db.world.log)
        invariant db.world.log.answers == l.answers + answers && rs.returned == ItemsIn(answers)
        invariant rs.Seen() == SeeAll(answers) && rs.errors == |db.world.log.unreadable| - |l.unreadable|
        invariant AskedAndKept(key, answers, t, gate.trace) && !EndsCaughtUp(answers) && NoneWaits(answers)
        invariant gate.initialSyncDone == old(gate.initialSyncDone)
        decreases P.MAX_NSU - cursor
      {
        ghost var h', l', t' := db.history, db.world.log, gate.trace;
        var turn := Turn(cursor, rs);
        TrackedTogether(h, l, h', l', db.history, db.world.log);
        TrackedGrows(h', l', db.history, db.world.log);
        ghost var brought := db.world.log.answers[|l'.answers|..];
        assert db.world.log.answers[|l.answers|..] == answers + brought;
        if !(turn.Fails? && turn.failure.kind.WaitNotRecorded?) {
          WaitsTogether(key, answers, brought, t, t', gate.trace);
          ToldSince(BlockOf(gate.blocks, key), answers, brought);
        }
        if turn.Fails? {
          StoppedTogether(l, l', db.world.log, db.state);
          return stop, Some(turn.failure), cursor;
        }
        if turn.Spent? {
          assert answers + brought == answers;
          return RateBudget, None, cursor;
        }
        var b := turn.b;
        assert brought == [b];
        ItemsInAppend(answers, b);
        SeeMore(answers, b);
        answers := answers + [b];
        assert db.world.log.answers[|l.answers|..] == answers;
        if b.batch.done {
          return b.stopReason.value, None, cursor;
        }
        if b.batch.next <= cursor {
          return stop, None, cursor;
        }
        ghost var l2 := db.world.log;
        var canceled := db.world.Canceled();
        ghost var g := db.history;
        TrackedNothing(g, l2, db.world.log);
        TrackedTogether(h, l, g, l2, g, db.world.log);
        TrackedGrows(h, l, g, db.world.log);
        if canceled {
          StoppedByCancel(l, l2, db.world.log);
          return stop, Some(Failure(NotStarted, true)), cursor;
        }
        cursor := b.batch.next;
      }
    }

    /** Writes how the run ended; when that fails too, the run stays as it was. */
    method FinishRun(rs: RunState, status: Status, stop: StopReason)
      requires Valid() && db.state.Some? && rs.documentsInserted == db.run.documentsFound
      modifies db`run, db`history, db.world
      ensures Valid() && db.Proto().phase.Idle? && db.history == old(db.history) + [P.Stop] && db.state == old(db.state)
      ensures rs.documentsInserted == db.run.documentsFound
      ensures Tracked(old(db.history), old(db.world.log), db.history, db.world.log)
      ensures db.world.log == old(db.world.log).(rollbacks := db.world.log.rollbacks)
      ensures db.world.log.rollbacks >= old(db.world.log).rollbacks
      ensures db.run ==
                if db.world.log == old(db.world.log) then
                  old(db.run).(checked := rs.checked, empty := rs.empty, consecutiveEmpty := rs.consecutiveEmpty,
                               errors := rs.errors, lastFound := rs.lastFound, status := status,
                               stopReason := Some(stop))
                else old(db.run)
    {
      hide P.Replay, P.FailedNsus, P.Settled, Agrees;
      ghost var h, l := db.history, db.world.log;
      var written := db.world.Transaction();
      TrackedNothing(h, l, db.world.log);
      if written.DbOk? {
        db.run := db.run.(checked := rs.checked, documentsFound := rs.documentsInserted, empty := rs.empty,
                          consecutiveEmpty := rs.consecutiveEmpty, errors := rs.errors, lastFound := rs.lastFound,
                          status := status, stopReason := Some(stop));
      }
      TrackedEvent(h, P.Stop, db.world.log);
      TrackedTogether(h, l, h, db.world.log, h + [P.Stop], db.world.log);
      db.Note(P.Stop);
    }

    /** One run, in normal mode from the stored cursor or, for a first setup, from the start. */
    method Sync(firstSetup: bool) returns (stop: StopReason, err: Option<Failure>, rs: Option<RunState>, ghost at: Nsu)
      requires Valid() && Holding(false)
      modifies db, gate, db.world
      ensures Valid() && db.Proto().phase.Idle? && gate.running == old(gate.running)
      ensures gate.clock >= old(gate.clock) && old(gate.trace) <= gate.trace
      ensures Tracked(old(db.history), old(db.world.log), db.history, db.world.log)
      ensures !(err.Some? && err.value.kind.WaitNotRecorded?) ==>
                && AskedAndKept(key, db.world.log.answers[|old(db.world.log).answers|..], old(gate.trace), gate.trace)
                && LastTold(BlockOf(gate.blocks, key), db.world.log.answers[|old(db.world.log).answers|..])
      ensures Marked(old(gate.initialSyncDone), gate.initialSyncDone, key,
                     err.None? && EndsCaughtUp(db.world.log.answers[|old(db.world.log).answers|..]))
      ensures Began(old(db.history), db.history, firstSetup, rs.Some?)
      ensures rs.Some? ==> fresh(rs.value) && db.state.Some? && rs.value.documentsInserted == db.run.documentsFound
      ensures rs.None? ==> err.Some? && db.run == old(db.run) && db.world.log.rollbacks > old(db.world.log).rollbacks
      ensures err.None? ==>
                && rs.Some? && rs.value.returned == rs.value.Handled()
                && rs.value.returned == ItemsIn(db.world.log.answers[|old(db.world.log).answers|..])
                && rs.value.Seen() == SeeAll(db.world.log.answers[|old(db.world.log).answers|..])
                && rs.value.errors == |db.world.log.unreadable| - |old(db.world.log).unreadable|
                && Ended(stop, old(gate.trace), gate.trace, db.world.log.answers[|old(db.world.log).answers|..], at)
      ensures Blamed(err, old(db.world.log), db.world.log)
      ensures err.Some? ==>
                || Disturbed(old(db.world.log), db.world.log)
                || StoppedUnreadable(old(db.world.log), db.world.log, db.state.value.failures)
      ensures db.world.log.rollbacks == old(db.world.log).rollbacks && rs.Some? ==>
                Told(db.run, rs.value.Checkpoint(), stop, err)
    {
      hide P.Replay, P.FailedNsus, P.Settled, P.LastAnswer, P.Finished, Agrees, G.Replay, Tracked, ItemsIn,
           AskedAndKept, SeeAll, Ended, StoppedUnreadable, ToldAs, BlockOf;
      assert db.world.log.answers[|db.world.log.answers|..] == [];
      NoWaits(key, gate.trace, gate.trace);
      stop, err, rs, at := EmptyLimit, None, None, 0;
      ghost var h, l := db.history, db.world.log;
      var loaded := db.GetOrCreateState();
      if loaded.Err? {
        NotBegun(h, l, db.world.log);
        db.Note(P.Stop);
        return stop, Some(Failure(NotStarted, loaded.error)), None, 0;
      }
      var started := db.StartRun(loaded.value.lastChecked);
      if started.DbFailed? {
        NotBegun(h, l, db.world.log);
        db.Note(P.Stop);
        return stop, Some(Failure(NotStarted, started.canceled)), None, 0;
      }
      var state := new RunState(loaded.value);
      ghost var begun := h + [P.Start(firstSetup)];
      TrackedEvent(h, P.Start(firstSetup), l);
      db.Note(P.Start(firstSetup));
      stop, err, at := WalkAndFinish(if firstSetup then 0 else loaded.value.lastChecked, state);
      TrackedTogether(h, l, begun, l, db.history, db.world.log);
      rs := Some(state);
    }

    /** The run itself, and the record of how it ended. */
    method WalkAndFinish(start: Nsu, rs: RunState) returns (stop: StopReason, err: Option<Failure>, ghost at: Nsu)
      requires Valid() && Holding(false) && InRun(rs) && db.Proto().phase == P.AtCursor(start)
      requires rs.returned == rs.Handled() == 0 && rs.Seen() == SeeAll([]) && rs.errors == 0
      modifies db, gate, rs, db.world
      ensures Valid() && db.Proto().phase.Idle? && gate.running == old(gate.running)
      ensures gate.clock >= old(gate.clock) && old(gate.trace) <= gate.trace
      ensures Tracked(old(db.history), old(db.world.log), db.history, db.world.log)
      ensures WithinRun(old(db.history), db.history)
      ensures !(err.Some? && err.value.kind.WaitNotRecorded?) ==>
                && AskedAndKept(key, db.world.log.answers[|old(db.world.log).answers|..], old(gate.trace), gate.trace)
                && LastTold(BlockOf(gate.blocks, key), db.world.log.answers[|old(db.world.log).answers|..])
      ensures Marked(old(gate.initialSyncDone), gate.initialSyncDone, key,
                     err.None? && EndsCaughtUp(db.world.log.answers[|old(db.world.log).answers|..]))
      ensures db.state.Some? && rs.documentsInserted == db.run.documentsFound
      ensures err.None? ==>
                && rs.returned == rs.Handled() == ItemsIn(db.world.log.answers[|old(db.world.log).answers|..])
                && rs.Seen() == SeeAll(db.world.log.answers[|old(db.world.log).answers|..])
                && rs.errors == |db.world.log.unreadable| - |old(db.world.log).unreadable|
                && Ended(stop, old(gate.trace), gate.trace, db.world.log.answers[|old(db.world.log).answers|..], at)
      ensures Blamed(err, old(db.world.log), db.world.log)
      ensures err.Some? ==>
                || Disturbed(old(db.world.log), db.world.log)
                || StoppedUnreadable(old(db.world.log), db.world.log, db.state.value.failures)
      ensures db.world.log.rollbacks == old(db.world.log).rollbacks ==> Told(db.run, rs.Checkpoint(), stop, err)
    {
      hide P.Replay, P.FailedNsus, P.Settled, P.LastAnswer, P.Finished, Agrees, G.Replay, Tracked, ItemsIn, InRun,
           SeeAll, AskedAndKept;
      ghost var h, l := db.history, db.world.log;
      stop, err, at := Walk(start, rs);
      ghost var h', l' := db.history, db.world.log;
      var finished := if err.None? then (Completed, stop) else Classified(err.value);
      FinishRun(rs, finished.0, finished.1);
      TrackedTogether(h, l, h', l', db.history, db.world.log);
      TrackedGrows(h, l, h', l');
      assert db.history[..|db.history| - 1] == h';
    }

    /** Why a run without error ended, and that everything up to the last answer's cursor is stored. */
    ghost predicate Ended(stop: StopReason, before: seq<Entry>, trace: seq<Entry>, answers: seq<SourceBatch>, at: Nsu)
      reads this, db
    {
      && db.history != [] && db.history[|db.history| - 1].Stop?
      && if stop.RateBudget? then !key.source.NFSe? && SpentLast(before, trace, key)
         else db.state.Some?
              && AnswerEnds(stop, answers, db.history[..|db.history| - 1], at, db.state.value.lastChecked)
    }

    /** The wait in force refuses the pull, then a reservation of the source; else the source is reserved. */
    method Admit() returns (refused: Option<PullError>)
      requires Valid()
      modifies gate`running, gate`clock
      ensures Valid() && gate.clock >= old(gate.clock)
      ensures refused.Some? ==> gate.running == old(gate.running)
      ensures refused.None? ==>
                && gate.running == old(gate.running) + {key} && key !in old(gate.running)
                && G.Allowed(gate.GateOf(key), G.BeginPull(gate.clock))
      ensures refused.Some? ==> refused.value.SourceBlocked? || refused.value.AlreadyRunning?
      ensures refused.Some? && refused.value.SourceBlocked? ==>
                && key in gate.blocks && gate.blocks[key] == refused.value.block
                && gate.clock < refused.value.block.until
      ensures !(refused.Some? && refused.value.SourceBlocked?) ==>
                && (key in gate.blocks ==> gate.clock >= gate.blocks[key].until)
                && (refused == Some(AlreadyRunning) <==> key in old(gate.running))
    {
      hide P.Replay, Agrees, G.Replay, G.CountSince, G.OldestSince, G.Prune, PruneRows, RowsOf;
      var now := gate.Now();
      var blocked := gate.BlockedFor(key, now, false);
      if blocked.Some? {
        return Some(SourceBlocked(blocked.value));
      }
      var reserved := gate.ReserveSource(key);
      refused := if reserved then None else Some(AlreadyRunning);
    }

    /** The wait is checked, the source reserved and the certificate opened before a run; then it is given back. */
    method Pull(firstSetup: bool, certificate: bool)
      returns (r: Result<(StopReason, RunState), PullError>, ghost at: Nsu)
      requires Valid()
      modifies db, gate, db.world
      ensures Valid() && gate.running == old(gate.running) && gate.clock >= old(gate.clock)
      // Refusals: exactly when there is cause, in this order, and without a trace.
      ensures r.Err? && r.error.SourceBlocked? ==>
                key in old(gate.blocks) && old(gate.blocks)[key] == r.error.block && gate.clock < r.error.block.until
      ensures !(r.Err? && r.error.SourceBlocked?) && key in old(gate.blocks) ==>
                gate.clock >= old(gate.blocks)[key].until
      ensures !(r.Err? && r.error.SourceBlocked?) ==> (r == Err(AlreadyRunning) <==> key in old(gate.running))
      ensures r == Err(NoCertificateForPull) ==> !certificate
      ensures r.Ok? || r.error.SyncFailed? ==> certificate
      ensures r.Err? && !r.error.SyncFailed? ==>
                && db.history == old(db.history) && db.run == old(db.run) && db.state == old(db.state)
                && db.world.log == old(db.world.log)
                && gate.requests == old(gate.requests) && gate.blocks == old(gate.blocks)
      // A run.
      ensures Tracked(old(db.history), old(db.world.log), db.history, db.world.log)
      ensures r.Ok? || r.error.SyncFailed? ==>
                Began(old(db.history), db.history, firstSetup, r.Ok?) && db.Proto().phase.Idle?
      ensures !(r.Err? && r.error.SyncFailed? && r.error.failure.kind.WaitNotRecorded?) ==>
                && AskedAndKept(key, db.world.log.answers[|old(db.world.log).answers|..], old(gate.trace), gate.trace)
                && LastTold(BlockOf(gate.blocks, key), db.world.log.answers[|old(db.world.log).answers|..])
      ensures Marked(old(gate.initialSyncDone), gate.initialSyncDone, key,
                     r.Ok? && EndsCaughtUp(db.world.log.answers[|old(db.world.log).answers|..]))
      ensures r.Ok? && db.world.log.rollbacks == old(db.world.log).rollbacks ==>
                Told(db.run, r.value.1.Checkpoint(), r.value.0, None)
      ensures r.Err? && r.error.SyncFailed? && db.world.log.rollbacks == old(db.world.log).rollbacks ==>
                ToldAs(db.run, r.error.failure)
      ensures r.Ok? ==>
                && r.value.1.returned == r.value.1.Handled()
                && r.value.1.returned == ItemsIn(db.world.log.answers[|old(db.world.log).answers|..])
                && r.value.1.Seen() == SeeAll(db.world.log.answers[|old(db.world.log).answers|..])
                && r.value.1.errors == |db.world.log.unreadable| - |old(db.world.log).unreadable|
                && |gate.trace| > |old(gate.trace)|
                && Ended(r.value.0, old(gate.trace), gate.trace[..|gate.trace| - 1],
                         db.world.log.answers[|old(db.world.log).answers|..], at)
      ensures r.Ok? ==> Blamed(None, old(db.world.log), db.world.log)
      ensures r.Err? && r.error.SyncFailed? ==> Blamed(Some(r.error.failure), old(db.world.log), db.world.log)
      ensures r.Err? && r.error.SyncFailed? ==>
                || Disturbed(old(db.world.log), db.world.log)
                || (db.state.Some? && StoppedUnreadable(old(db.world.log), db.world.log, db.state.value.failures))
    {
      hide P.Replay, Agrees, G.Replay, G.CountSince, G.OldestSince, G.Prune, PruneRows, RowsOf, Tracked, AskedAndKept,
           LastTold, SeeAll, ItemsIn, AnswerEnds, Told, EndsCaughtUp, Disturbed, StoppedUnreadable, P.Allowed;
      at := 0;
      TrackedNothing(db.history, db.world.log, db.world.log);
      assert db.world.log.answers[|db.world.log.answers|..] == [];
      NoWaits(key, gate.trace, gate.trace);
      NothingTold(BlockOf(gate.blocks, key));
      var refused := Admit();
      if refused.Some? {
        return Err(refused.value), at;
      }
      r, at := PullReserved(firstSetup, certificate);
      ghost var t := gate.trace;
      gate.Release(key);
      TrackedGrows(old(db.history), old(db.world.log), db.history, db.world.log);
      ghost var brought := db.world.log.answers[|old(db.world.log).answers|..];
      assert brought + [] == brought;
      NoWaits(key, t, gate.trace);
      if !(r.Err? && r.error.SyncFailed? && r.error.failure.kind.WaitNotRecorded?) {
        WaitsTogether(key, brought, [], old(gate.trace), t, gate.trace);
      }
    }

    /** The part of Pull that holds the reservation. */
    method PullReserved(firstSetup: bool, certificate: bool)
      returns (r: Result<(StopReason, RunState), PullError>, ghost at: Nsu)
      requires Valid() && key in gate.running && G.Allowed(gate.GateOf(key), G.BeginPull(gate.clock))
      modifies db, gate, db.world
      ensures Valid() && gate.running == old(gate.running) && gate.clock >= old(gate.clock)
      ensures old(gate.trace) <= gate.trace
      ensures r == Err(NoCertificateForPull) <==> !certificate
      ensures r.Err? ==> r.error.NoCertificateForPull? || r.error.SyncFailed?
      ensures !certificate ==>
                && db.history == old(db.history) && db.run == old(db.run) && db.state == old(db.state)
                && db.world.log == old(db.world.log)
                && gate.requests == old(gate.requests) && gate.blocks == old(gate.blocks)
      ensures Tracked(old(db.history), old(db.world.log), db.history, db.world.log)
      ensures certificate ==> Began(old(db.history), db.history, firstSetup, r.Ok?) && db.Proto().phase.Idle?
      ensures !(r.Err? && r.error.SyncFailed? && r.error.failure.kind.WaitNotRecorded?) ==>
                && AskedAndKept(key, db.world.log.answers[|old(db.world.log).answers|..], old(gate.trace), gate.trace)
                && LastTold(BlockOf(gate.blocks, key), db.world.log.answers[|old(db.world.log).answers|..])
      ensures Marked(old(gate.initialSyncDone), gate.initialSyncDone, key,
                     r.Ok? && EndsCaughtUp(db.world.log.answers[|old(db.world.log).answers|..]))
      ensures r.Ok? && db.world.log.rollbacks == old(db.world.log).rollbacks ==>
                Told(db.run, r.value.1.Checkpoint(), r.value.0, None)
      ensures r.Err? && r.error.SyncFailed? && db.world.log.rollbacks == old(db.world.log).rollbacks ==>
                ToldAs(db.run, r.error.failure)
      ensures r.Ok? ==>
                && r.value.1.returned == r.value.1.Handled()
                && r.value.1.returned == ItemsIn(db.world.log.answers[|old(db.world.log).answers|..])
                && r.value.1.Seen() == SeeAll(db.world.log.answers[|old(db.world.log).answers|..])
                && r.value.1.errors == |db.world.log.unreadable| - |old(db.world.log).unreadable|
                && Ended(r.value.0, old(gate.trace), gate.trace,
                         db.world.log.answers[|old(db.world.log).answers|..], at)
      ensures r.Ok? ==> Blamed(None, old(db.world.log), db.world.log)
      ensures r.Err? && r.error.SyncFailed? ==> Blamed(Some(r.error.failure), old(db.world.log), db.world.log)
      ensures r.Err? && r.error.SyncFailed? ==>
                || Disturbed(old(db.world.log), db.world.log)
                || (db.state.Some? && StoppedUnreadable(old(db.world.log), db.world.log, db.state.value.failures))
    {
      hide P.Replay, Agrees, G.Replay, G.CountSince, G.OldestSince, G.Prune, PruneRows, RowsOf, Tracked, ItemsIn,
           AnswerEnds, AskedAndKept, SeeAll;
      at := 0;
      TrackedNothing(db.history, db.world.log, db.world.log);
      assert db.world.log.answers[|db.world.log.answers|..] == [];
      ghost var t := gate.trace;
      gate.Note(key, G.BeginPull(gate.clock));
      ghost var begun := gate.trace;
      NoWaits(key, t, begun);
      if !certificate {
        return Err(NoCertificateForPull), at;
      }
      var stop, err, rs;
      stop, err, rs, at := Sync(firstSetup);
      r := if err.Some? then Err(SyncFailed(err.value)) else Ok((stop, rs.value));
      TrackedGrows(old(db.history), old(db.world.log), db.history, db.world.log);
      ghost var brought := db.world.log.answers[|old(db.world.log).answers|..];
      assert [] + brought == brought;
      if !(err.Some? && err.value.kind.WaitNotRecorded?) {
        WaitsTogether(key, [], brought, t, begun, gate.trace);
      }
    }

    /** The next pull starts over; a wait imposed by the authority stays. A running pull is left alone. */
    method ResetSyncState() returns (r: Result<(), PullError>)
      requires Valid()
      modifies db, gate, db.world
      ensures Valid() && gate.blocks == old(gate.blocks) && gate.requests == old(gate.requests)
      ensures gate.running == old(gate.running)
      ensures r == Err(AlreadyRunning) <==> key in old(gate.running)
      ensures r.Ok? ==> db.state.None? && key !in gate.initialSyncDone
      ensures r.Ok? ==> db.history == old(db.history) + [P.Event.Reset] && db.world.log == old(db.world.log)
      ensures r.Err? ==> db.state == old(db.state) && db.history == old(db.history)
      ensures r.Err? ==> gate.initialSyncDone == old(gate.initialSyncDone)
      ensures r.Err? && r != Err(AlreadyRunning) ==> Disturbed(old(db.world.log), db.world.log)
    {
      hide P.Replay, P.Next, P.Allowed, Agrees, G.Replay, G.CountSince, G.OldestSince, G.Prune, PruneRows, RowsOf,
           G.Next, G.Allowed, Matches;
      var reserved := gate.ReserveSource(key);
      if !reserved {
        return Err(AlreadyRunning);
      }
      var deleted := db.world.Transaction();
      if deleted.DbOk? {
        db.DeleteSyncState();
        gate.ClearInitialSync(key);
        r := Ok(());
      } else {
        r := Err(SyncFailed(Failure(PersistError, deleted.canceled)));
      }
      gate.Release(key);
    }
  }

  /**
   The wait of an answer that a pull received and recorded holds: no request of that source is sent before
   it ends, when it is for consumo_indevido, or when the source is never looked up by chave.
   */
  lemma AnswerWaitHolds(gate: Store, key: Key, b: SourceBatch, before: seq<Entry>, after: seq<Entry>, j: nat)
    requires gate.Valid() && before <= after <= gate.trace && WaitKept(key, b, after[|before|..]) && b.waitUntil.Some?
    requires |after| <= j < |gate.trace| && gate.trace[j].key == key && gate.trace[j].event.Send?
    requires b.stopReason == Some(ConsumoIndevido) || NoLookupsOf(gate.trace, key)
    ensures gate.trace[j].event.now >= b.waitUntil.value
  {
    hide Agrees, NoLookupsOf;
    var did := after[|before|..];
    var i :| 0 <= i < |did| && did[i].key == key && did[i].event.Wait?
             && did[i].event.block == G.Block(b.waitUntil.value, ReasonOf(b.stopReason));
    assert gate.trace[|before| + i] == did[i];
    gate.WaitsHold(key, |before| + i, j);
  }

  /** A run that got as far as starting records in which mode, and starts or resets nothing else. */
  predicate Began(h: seq<P.Event>, g: seq<P.Event>, firstSetup: bool, started: bool) {
    || (WithinRun(h + [P.Start(firstSetup)], g))
    || (!started && g == h + [P.Stop])
  }

  /** A run that could not start leaves only its end. */
  lemma NotBegun(h: seq<P.Event>, l: Log, l': Log)
    requires P.Replay(h).Some? && Grows(l, l') && l'.unreadable == l.unreadable
    ensures Tracked(h, l, h + [P.Stop], l')
  {
    hide P.Replay, P.FailedNsus, P.Settled, Tracked;
    TrackedNothing(h, l, l');
    TrackedEvent(h, P.Stop, l');
    TrackedTogether(h, l, h, l', h + [P.Stop], l');
  }

  /** A run in normal mode from an idle moment moves the cursor onward, when its answers come in order. */
  lemma BeganOnward(h: seq<P.Event>, g: seq<P.Event>, started: bool)
    requires Began(h, g, false, started) && h <= g && P.Replay(h).Some? && P.Replay(h).value.phase.Idle?
    requires P.Replay(g).Some? && P.OrderedFrom(g, |h|)
    ensures P.Onward(g, |h|) && P.NoResetFrom(g, |h|)
  {
    assert g[..|h|] == h;
    BeganQuietly(h, g, started);
  }

  lemma BeganQuietly(h: seq<P.Event>, g: seq<P.Event>, started: bool)
    requires Began(h, g, false, started)
    ensures P.QuietFrom(g, |h|)
  {
    var begun := h + [P.Start(false)];
    if WithinRun(begun, g) {
      assert g[|h|] == begun[|h|];
    }
  }

  /** So three pulls of one company, as their contracts state them, move the cursor past an unreadable item. */
  lemma ThirdPullMovesPast(db: Database, h0: seq<P.Event>, l0: Log, h1: seq<P.Event>, l1: Log, h2: seq<P.Event>,
                           l2: Log, l3: Log, n: Nsu, started: bool)
    requires db.Valid() && db.state.Some? && P.Settled(h0)
    requires Tracked(h0, l0, h1, l1) && Tracked(h1, l1, h2, l2) && Tracked(h2, l2, db.history, l3)
    requires P.Replay(h2).Some? && P.Replay(h2).value.phase.Idle? && Began(h2, db.history, false, started)
    requires P.OrderedFrom(db.history, |h2|)
    requires l3.rollbacks == l0.rollbacks && |l1.unreadable| > |l0.unreadable| && P.Last(l1.unreadable) == n
    requires l2.unreadable == l1.unreadable + [n] && l2.unreadable + [n] <= l3.unreadable
    ensures P.Committed(db.Proto(), n) && n <= db.state.value.lastChecked
  {
    hide P.Replay, P.Settled, P.OrderedFrom, P.Committed, Tracked, Began, P.Onward, P.NoResetFrom;
    TrackedGrows(h2, l2, db.history, l3);
    BeganOnward(h2, db.history, started);
    db.ThirdUnreadableRunMovesPast(h0, l0, h1, l1, h2, l2, l3, n);
  }
}
