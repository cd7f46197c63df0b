/**
 The rows the pull loop writes (internal/sync/store.go) and the world it runs in: what the authority
 answers, whether an item can be read, which transaction fails and when the user cancels are left open,
 and the world remembers which of them happened.
 */
module PullStore {
  import opened Wrappers
  import P = PullProtocol
  import opened PullSources
  import G = RequestGate
  import opened SourceStore

  type Nsu = P.Nsu
  type Item = P.Item

  // ----- rows -----

  datatype SyncState = SyncState(
    lastChecked: Nsu, lastFound: Option<Nsu>, maxNsu: Option<Nsu>, emptyStreak: nat, lastError: Option<string>,
    failures: P.Failures)

  datatype Status = InProgress | Completed | Interrupted | Failed

  datatype Run = Run(
    fromNsu: Nsu, toNsu: Nsu, checked: nat, documentsFound: nat, empty: nat, consecutiveEmpty: nat, errors: nat,
    lastFound: Option<Nsu>, status: Status, stopReason: Option<StopReason>)

  /** A checkpoint as doPersistProgress receives it. */
  datatype Progress = Progress(
    lastProcessed: Nsu, lastFound: Option<Nsu>, maxNsu: Option<Nsu>, checked: nat, documentsFound: nat, empty: nat,
    consecutiveEmpty: nat, errors: nat, errorCode: Option<string>, markSuccess: bool)

  function Or<T>(a: Option<T>, b: Option<T>): Option<T> {
    if a.Some? then a else b
  }

  function Checkpointed(s: SyncState, p: Progress): SyncState {
    SyncState(p.lastProcessed, Or(p.lastFound, s.lastFound), Or(p.maxNsu, s.maxNsu), p.consecutiveEmpty,
              if p.errorCode.Some? then p.errorCode else if p.markSuccess then None else s.lastError, s.failures)
  }

  function Recorded(r: Run, p: Progress): Run {
    Run(r.fromNsu, p.lastProcessed, p.checked, p.documentsFound, p.empty, p.consecutiveEmpty, p.errors,
        Or(p.lastFound, r.lastFound), r.status, r.stopReason)
  }

  /** A source never stores an item it also skips. */
  datatype Flags = Flags(inserted: bool, isEvent: bool, skippedByPolicy: bool, unsupported: bool, partial: bool)
  type ItemOutcome = o: Flags | o.inserted ==> !o.skippedByPolicy && !o.unsupported
    witness Flags(false, false, false, false, false)

  function OutcomeOf(o: ItemOutcome): P.Outcome {
    if o.skippedByPolicy then P.SkippedByPolicy
    else if o.unsupported then P.Unsupported
    else if o.inserted then P.Stored
    else P.Duplicate
  }

  /** A failed transaction changes nothing; a cancel makes it fail too. */
  datatype DbResult = DbOk | DbFailed(canceled: bool)

  // ----- the world -----

  /** What reading an item leads to, before its transaction. */
  datatype Reading = Ready(outcome: ItemOutcome) | Unreadable | Broken(canceled: bool)

  /** Everything that went wrong, and every answer, since the world began. */
  datatype Log = Log(
    rollbacks: nat, cancels: nat, refusals: nat, broken: nat, unreadable: seq<Nsu>, answers: seq<SourceBatch>)

  /** Something other than an unreadable item went wrong between the two. */
  predicate Disturbed(before: Log, after: Log) {
    || after.rollbacks > before.rollbacks || after.cancels > before.cancels
    || after.refusals > before.refusals || after.broken > before.broken
  }

  /** What the loop relies on of a source: a wait only ends a budgeted run, for an hour, with its reason. */
  predicate Shaped(source: Source, now: Time, b: SourceBatch) {
    && (b.stopReason.Some? <==> b.batch.done)
    && b.stopReason != Some(RateBudget)
    && (b.waitUntil.Some? ==>
          && !source.NFSe? && b.batch.done && b.waitUntil.value == now + G.HOUR
          && (b.stopReason == Some(CaughtUp) || b.stopReason == Some(ConsumoIndevido)))
  }

  function ReasonOf(stop: Option<StopReason>): G.Reason {
    if stop == Some(CaughtUp) then G.CaughtUp else G.ConsumoIndevido
  }

  class World {
    const source: Source
    const isEvent: string -> bool
    ghost var log: Log

    constructor (source: Source, isEvent: string -> bool)
      ensures this.source == source && log == Log(0, 0, 0, 0, [], [])
    {
      this.source, this.isEvent := source, isEvent;
      log := Log(0, 0, 0, 0, [], []);
    }

    /** A transaction commits or rolls back. */
    method Transaction() returns (r: DbResult)
      modifies this
      ensures log == old(log).(rollbacks := old(log).rollbacks + if r.DbFailed? then 1 else 0)
    {
      r := *;
      if r.DbFailed? {
        log := log.(rollbacks := log.rollbacks + 1);
      }
    }

    /** ctx.Done() */
    method Canceled() returns (canceled: bool)
      modifies this
      ensures log == old(log).(cancels := old(log).cancels + if canceled then 1 else 0)
    {
      canceled := *;
      if canceled {
        log := log.(cancels := log.cancels + 1);
      }
    }

    /** Any answer, read as the source reads it; Err says whether it was a cancel. */
    method Fetch(cursor: Nsu, now: Time) returns (r: Result<SourceBatch, bool>)
      modifies this
      ensures r.Ok? ==> Shaped(source, now, r.value) && log == old(log).(answers := old(log).answers + [r.value])
      ensures r.Err? ==> log == old(log).(refusals := old(log).refusals + 1)
    {
      var failed: bool, canceled: bool := *, *;
      if failed {
        log := log.(refusals := log.refusals + 1);
        return Err(canceled);
      }
      if source.NFSe? {
        var docs: seq<Item>, maxNsu: Nsu := *, *;
        var b := NfseFetch(docs, maxNsu, cursor);
        log := log.(answers := log.answers + [b]);
        return Ok(b);
      }
      var resp: DistResult := *;
      var read := DistBatch(resp, cursor, isEvent, now);
      if read.Err? {
        log := log.(refusals := log.refusals + 1);
        return Err(false);
      }
      log := log.(answers := log.answers + [read.value]);
      return Ok(read.value);
    }

    method Read(item: Item) returns (r: Reading)
      modifies this
      ensures match r
              case Ready(_) => log == old(log)
              case Unreadable => log == old(log).(unreadable := old(log).unreadable + [item.nsu])
              case Broken(canceled) =>
                log == if canceled then old(log).(cancels := old(log).cancels + 1)
                       else old(log).(broken := old(log).broken + 1)
    {
      r := *;
      match r {
        case Ready(_) =>
        case Unreadable => log := log.(unreadable := log.unreadable + [item.nsu]);
        case Broken(canceled) =>
          log := if canceled then log.(cancels := log.cancels + 1) else log.(broken := log.broken + 1);
      }
    }
  }

  // ----- what a stretch of a run leaves behind -----

  predicate Grows(before: Log, after: Log) {
    && before.rollbacks <= after.rollbacks && before.cancels <= after.cancels
    && before.refusals <= after.refusals && before.broken <= after.broken
    && before.unreadable <= after.unreadable && before.answers <= after.answers
  }

  /** No transaction failed: every unreadable item was recorded, and any streak of three was given up. */
  predicate Kept(h: seq<P.Event>, before: Log, g: seq<P.Event>, after: Log)
    requires before.unreadable <= after.unreadable
  {
    && P.FailedNsus(g) == P.FailedNsus(h) + after.unreadable[|before.unreadable|..]
    && (P.Settled(h) ==> P.Settled(g))
  }

  predicate Tracked(h: seq<P.Event>, before: Log, g: seq<P.Event>, after: Log) {
    && h <= g && Grows(before, after)
    && (after.rollbacks == before.rollbacks ==> Kept(h, before, g, after))
  }

  /** Within a run nothing starts or resets. */
  predicate WithinRun(h: seq<P.Event>, g: seq<P.Event>) {
    h <= g && forall i :: |h| <= i < |g| ==> !g[i].Start? && !g[i].Reset?
  }

  lemma TrackedTogether(h: seq<P.Event>, l: Log, h': seq<P.Event>, l': Log, h'': seq<P.Event>, l'': Log)
    requires Tracked(h, l, h', l') && Tracked(h', l', h'', l'')
    ensures Tracked(h, l, h'', l'')
    ensures WithinRun(h, h') && WithinRun(h', h'') ==> WithinRun(h, h'')
  {
    hide P.FailedNsus, P.Settled;
    var a, b, c := l.unreadable, l'.unreadable, l''.unreadable;
    assert c[|a|..] == b[|a|..] + c[|b|..];
    if l''.rollbacks == l.rollbacks {
      var f, f', f'' := P.FailedNsus(h), P.FailedNsus(h'), P.FailedNsus(h'');
      assert f'' == (f + b[|a|..]) + c[|b|..];
      assert f'' == f + c[|a|..];
    }
  }

  lemma TrackedGrows(h: seq<P.Event>, l: Log, h': seq<P.Event>, l': Log)
    requires Tracked(h, l, h', l')
    ensures h <= h' && Grows(l, l')
  {
  }

  /** An event that is not a failure, while nothing in the log changes. */
  lemma TrackedEvent(h: seq<P.Event>, e: P.Event, l: Log)
    requires P.Replay(h).Some? && P.Allowed(P.Replay(h).value, e) && !e.Failed? && !e.Reset?
    requires !P.Poisoned(P.Next(P.Replay(h).value, e))
    ensures Tracked(h, l, h + [e], l)
  {
    hide P.FailedNsus, P.Allowed, P.Next, P.Replay;
    P.FailedAppend(h, e);
    if P.Settled(h) {
      P.SettledAppend(h, e);
    }
    assert l.unreadable[|l.unreadable|..] == [];
    assert P.FailedNsus(h) + [] == P.FailedNsus(h);
  }

  lemma TrackedNothing(h: seq<P.Event>, l: Log, l': Log)
    requires Grows(l, l') && l'.unreadable == l.unreadable
    ensures Tracked(h, l, h, l')
  {
    assert l.unreadable[|l.unreadable|..] == [];
    assert P.FailedNsus(h) + [] == P.FailedNsus(h);
  }

  lemma UnreadableGrows(l: Log, l': Log, n: Nsu)
    requires Grows(l, l') && l'.unreadable == l.unreadable + [n]
    ensures l'.unreadable[|l.unreadable|..] == [n]
  {
  }

  /** An unreadable item whose failure was recorded and ended the run. */
  lemma TrackedFailure(h: seq<P.Event>, n: Nsu, l: Log, l': Log)
    requires P.Replay(h).Some? && P.Allowed(P.Replay(h).value, P.Event.Failed(n))
    requires !P.Poisoned(P.Next(P.Replay(h).value, P.Event.Failed(n)))
    requires Grows(l, l') && l'.unreadable == l.unreadable + [n]
    ensures Tracked(h, l, h + [P.Event.Failed(n)], l')
  {
    hide P.FailedNsus, P.Allowed, P.Next, P.Replay;
    UnreadableGrows(l, l', n);
    P.FailedAppend(h, P.Event.Failed(n));
    if P.Settled(h) {
      P.SettledAppend(h, P.Event.Failed(n));
    }
  }

  /** An unreadable item that was given up. */
  lemma TrackedGivenUp(h: seq<P.Event>, n: Nsu, commit: P.Commit, l: Log, l': Log)
    requires P.Replay(h).Some? && P.Allowed(P.Replay(h).value, P.Event.Failed(n))
    requires P.Allowed(P.Next(P.Replay(h).value, P.Event.Failed(n)), P.Done(commit))
    requires Grows(l, l') && l'.unreadable == l.unreadable + [n]
    ensures Tracked(h, l, h + [P.Event.Failed(n)] + [P.Done(commit)], l')
  {
    hide P.FailedNsus, P.Allowed, P.Next, P.Replay;
    UnreadableGrows(l, l', n);
    var f := h + [P.Event.Failed(n)];
    P.FailedAppend(h, P.Event.Failed(n));
    P.FailedAppend(f, P.Done(commit));
    assert P.FailedNsus(f) + [] == P.FailedNsus(f);
    if P.Settled(h) {
      P.SettledGivesUp(h, n, commit);
    }
  }

  // ----- the database -----

  predicate Matches(p: P.Proto, state: Option<SyncState>) {
    match state
    case None => p.stored == 0 && p.failures.NoFailure?
    case Some(s) => p.stored == s.lastChecked && p.failures == s.failures
  }

  class Database {
    const world: World
    var state: Option<SyncState>
    var run: Run
    ghost var history: seq<P.Event>

    constructor (world: World)
      ensures Valid() && this.world == world && state.None? && history == []
    {
      this.world, state, history := world, None, [];
      run := Run(0, 0, 0, 0, 0, 0, 0, None, InProgress, None);
    }

    ghost predicate Valid()
      reads this
    {
      P.Replay(history).Some? && Matches(P.Replay(history).value, state)
    }

    ghost function Proto(): P.Proto
      reads this
      requires Valid()
    {
      P.Replay(history).value
    }

    /** Everything the queue held up to the stored cursor was committed, whatever happened on the way. */
    lemma NothingLost(queue: set<Nsu>)
      requires Valid() && state.Some? && P.HonestHistory(queue, history)
      ensures forall n :: n in queue && 0 < n <= state.value.lastChecked ==> P.Committed(Proto(), n)
    {
      P.NoItemIsLost(queue, history);
    }

    /** After a finished batch the whole queue up to its next cursor is stored, and so is the cursor. */
    lemma CaughtUpIsComplete(queue: set<Nsu>, cursor: Nsu, batch: P.Batch)
      requires Valid() && state.Some? && P.HonestHistory(queue, history)
      requires history != [] && history[|history| - 1].Stop? && P.Finished(history[..|history| - 1], cursor, batch)
      ensures batch.next <= state.value.lastChecked
      ensures forall n :: n in queue && 0 < n <= batch.next ==> P.Committed(Proto(), n)
    {
      var front := history[..|history| - 1];
      P.HonestPrefix(queue, history, |history| - 1);
      P.FinishedIsComplete(queue, front, cursor, batch);
    }

    /**
     A run in which an item was the last to be unreadable, a second in which it alone was, and a third that
     meets it first, all without a failed transaction: whatever else the third meets, it commits that item
     and, in normal mode and with answers in order, leaves the stored cursor past it.
     */
    lemma ThirdUnreadableRunMovesPast(h0: seq<P.Event>, l0: Log, h1: seq<P.Event>, l1: Log, h2: seq<P.Event>, l2: Log,
                                      l3: Log, n: Nsu)
      requires Valid() && state.Some? && P.Settled(h0)
      requires Tracked(h0, l0, h1, l1) && Tracked(h1, l1, h2, l2) && Tracked(h2, l2, history, l3)
      requires l3.rollbacks == l0.rollbacks && P.NoResetFrom(history, |h2|)
      requires |l1.unreadable| > |l0.unreadable| && P.Last(l1.unreadable) == n
      requires l2.unreadable == l1.unreadable + [n] && l2.unreadable + [n] <= l3.unreadable
      ensures P.Committed(Proto(), n)
      ensures P.Onward(history, |h2|) ==> n <= state.value.lastChecked
    {
      hide P.FailedNsus, P.Settled, P.Committed, P.NoResetFrom, P.Onward;
      UnreadableGrows(l1, l2, n);
      var d1, d3 := l1.unreadable[|l0.unreadable|..], l3.unreadable[|l2.unreadable|..];
      assert P.Last(d1) == n && d3[0] == n && [n] <= d3;
      assert P.FailedNsus(h1) == P.FailedNsus(h0) + d1;
      assert P.FailedNsus(history) == P.FailedNsus(h2) + d3;
      P.ThirdRunMovesPast(h1, h2, history, n);
    }

    ghost method Note(e: P.Event)
      requires P.Replay(history).Some? && P.Allowed(P.Replay(history).value, e)
      requires Matches(P.Next(P.Replay(history).value, e), state)
      modifies this`history
      ensures Valid() && history == old(history) + [e]
      ensures Proto() == P.Next(P.Replay(old(history)).value, e)
    {
      P.ReplayAppend(history, e);
      history := history + [e];
    }

    method GetOrCreateState() returns (r: Result<SyncState, bool>)
      requires Valid()
      modifies this`state, world
      ensures Valid()
      ensures r.Ok? ==> state == Some(r.value) && (old(state).Some? ==> state == old(state))
      ensures r.Ok? ==> r.value.lastChecked == Proto().stored && world.log == old(world.log)
      ensures r.Ok? && old(state).None? ==> r.value == SyncState(0, None, None, 0, None, P.NoFailure)
      ensures r.Err? ==> state == old(state) && world.log == old(world.log).(rollbacks := old(world.log).rollbacks + 1)
    {
      var failure := world.Transaction();
      if failure.DbFailed? {
        return Err(failure.canceled);
      }
      if state.None? {
        state := Some(SyncState(0, None, None, 0, None, P.NoFailure));
      }
      return Ok(state.value);
    }

    method StartRun(from: Nsu) returns (r: DbResult)
      modifies this`run, world
      ensures world.log == old(world.log).(rollbacks := old(world.log).rollbacks + if r.DbFailed? then 1 else 0)
      ensures r.DbOk? ==> run == Run(from, from, 0, 0, 0, 0, 0, None, InProgress, None)
      ensures r.DbFailed? ==> run == old(run)
    {
      r := world.Transaction();
      if r.DbOk? {
        run := Run(from, from, 0, 0, 0, 0, 0, None, InProgress, None);
      }
    }

    method PersistProgress(p: Progress) returns (r: DbResult)
      requires state.Some?
      modifies this`state, this`run, world
      ensures world.log == old(world.log).(rollbacks := old(world.log).rollbacks + if r.DbFailed? then 1 else 0)
      ensures r.DbOk? ==> state == Some(Checkpointed(old(state).value, p)) && run == Recorded(old(run), p)
      // A value the checkpoint lacks stays as it was; an error is kept until a success or another error.
      ensures r.DbOk? && p.maxNsu.None? ==> state.value.maxNsu == old(state).value.maxNsu
      ensures r.DbOk? && p.lastFound.None? ==>
                state.value.lastFound == old(state).value.lastFound && run.lastFound == old(run).lastFound
      ensures r.DbOk? && p.errorCode.None? && !p.markSuccess ==> state.value.lastError == old(state).value.lastError
      ensures r.DbOk? && p.errorCode.None? && p.markSuccess ==> state.value.lastError == None
      ensures r.DbOk? && p.errorCode.Some? ==> state.value.lastError == p.errorCode
      ensures r.DbFailed? ==> state == old(state) && run == old(run)
    {
      r := world.Transaction();
      if r.DbOk? {
        state := Some(Checkpointed(state.value, p));
        run := Recorded(run, p);
      }
    }

    /** The item's rows and its checkpoint in one transaction; an inserted document is counted first. */
    method ApplyWithProgress(p: Progress, outcome: ItemOutcome) returns (r: DbResult)
      requires Valid() && state.Some?
      requires P.Allowed(Proto(), P.Done(P.Commit(p.lastProcessed, OutcomeOf(outcome))))
      modifies this`state, this`run, this`history, world
      ensures Valid() && state.Some?
      ensures world.log == old(world.log).(rollbacks := old(world.log).rollbacks + if r.DbFailed? then 1 else 0)
      ensures r.DbOk? ==>
                var q := p.(documentsFound := p.documentsFound + if outcome.inserted && !outcome.isEvent then 1 else 0);
                && state == Some(Checkpointed(old(state).value, q)) && run == Recorded(old(run), q)
                && history == old(history) + [P.Done(P.Commit(p.lastProcessed, OutcomeOf(outcome)))]
      ensures r.DbOk? ==> Proto() == P.Next(old(Proto()), P.Done(P.Commit(p.lastProcessed, OutcomeOf(outcome))))
      ensures r.DbFailed? ==> state == old(state) && run == old(run) && history == old(history)
    {
      var q := p;
      if outcome.inserted && !outcome.isEvent {
        q := q.(documentsFound := q.documentsFound + 1);
      }
      r := PersistProgress(q);
      if r.DbOk? {
        Note(P.Done(P.Commit(p.lastProcessed, OutcomeOf(outcome))));
      }
    }

    /** How many times in a row the item at nsu has now failed. */
    method RecordItemFailure(nsu: Nsu) returns (r: DbResult, attempts: nat)
      requires Valid() && state.Some? && P.Allowed(Proto(), P.Event.Failed(nsu))
      modifies this`state, this`history, world
      ensures Valid() && state.Some?
      ensures world.log == old(world.log).(rollbacks := old(world.log).rollbacks + if r.DbFailed? then 1 else 0)
      ensures r.DbOk? ==>
                && attempts == P.Again(old(state).value.failures, nsu)
                && state == Some(old(state).value.(failures := P.FailedAt(nsu, attempts)))
                && history == old(history) + [P.Event.Failed(nsu)]
                && Proto() == P.Next(old(Proto()), P.Event.Failed(nsu))
      ensures r.DbFailed? ==> state == old(state) && history == old(history)
    {
      attempts := 0;
      r := world.Transaction();
      if r.DbOk? {
        attempts := match state.value.failures
          case NoFailure => 1
          case FailedAt(n, k) => if n == nsu then k + 1 else 1;
        state := Some(state.value.(failures := P.FailedAt(nsu, attempts)));
        Note(P.Event.Failed(nsu));
      }
    }

    /** Deletes the cursor row, so the next pull starts over. */
    method DeleteSyncState()
      requires Valid()
      modifies this`state, this`history
      ensures Valid() && state.None? && history == old(history) + [P.Event.Reset]
    {
      state := None;
      Note(P.Event.Reset);
    }
  }
}
