/**
 How a distribution queue is walked by NSU (internal/sync/loop.go, internal/sync/store.go), as a
 protocol: one transaction per item, a checkpoint per batch, and a run that may fail, be cancelled or
 crash between any two of them. Starting again is always possible: it reads the stored cursor.
 */
module PullProtocol {
  import opened Wrappers

  /** An int64 sequence number. */
  type Nsu = n: int | -0x8000_0000_0000_0000 <= n <= 0x7fff_ffff_ffff_ffff

  const MAX_NSU: Nsu := 0x7fff_ffff_ffff_ffff
  const MAX_ITEM_ATTEMPTS: nat := 3

  /** How one item ended; Unsupported is also what a given-up item is committed as. */
  datatype Outcome = Stored | Duplicate | SkippedByPolicy | Unsupported

  datatype Item = Item(nsu: Nsu, isEvent: bool)

  /** The items of one answer, the cursor of the next request, and whether the source says stop. */
  datatype Batch = Batch(items: seq<Item>, next: Nsu, done: bool)

  /** The items above the cursor; the loop ignores the others as stale. */
  function Fresh(items: seq<Item>, cursor: Nsu): seq<Item> {
    if items == [] then []
    else (if items[0].nsu > cursor then [items[0]] else []) + Fresh(items[1..], cursor)
  }

  datatype Commit = Commit(nsu: Nsu, outcome: Outcome)

  /** Where the running pull stands; poison says the item in front may be given up. */
  datatype Phase =
    | Idle
    | AtCursor(cursor: Nsu)
    | InBatch(from: Nsu, todo: seq<Item>, next: Nsu, done: bool, poison: bool)

  datatype Failures = NoFailure | FailedAt(nsu: Nsu, attempts: nat)

  /** stored is last_checked_nsu; committed remembers every item transaction since the last reset. */
  datatype Proto = Proto(stored: Nsu, failures: Failures, phase: Phase, committed: seq<Commit>)

  datatype Event =
    | Start(firstSetup: bool)
    | Answer(batch: Batch)
    | Done(commit: Commit)
    | Failed(nsu: Nsu)
    | Checkpoint
    | Stop
    | Reset

  /** RecordItemFailure: a failure at another NSU starts the count over. */
  function Again(f: Failures, nsu: Nsu): nat {
    match f
    case NoFailure => 1
    case FailedAt(n, attempts) => if n == nsu then attempts + 1 else 1
  }

  predicate Allowed(p: Proto, e: Event) {
    match e
    case Start(_) => true
    case Answer(_) => p.phase.AtCursor?
    case Done(commit) =>
      && p.phase.InBatch? && p.phase.todo != [] && commit.nsu == p.phase.todo[0].nsu
      && (p.phase.poison ==> commit.outcome.Unsupported?)
    case Failed(nsu) => p.phase.InBatch? && p.phase.todo != [] && nsu == p.phase.todo[0].nsu && !p.phase.poison
    case Checkpoint => p.phase.InBatch? && p.phase.todo == []
    case Stop => true
    // Whoever resets holds the reservation, so no run is in flight, whatever a crash left behind.
    case Reset => true
  }

  function Max(a: Nsu, b: Nsu): Nsu {
    if a >= b then a else b
  }

  function Next(p: Proto, e: Event): Proto {
    match e
    case Start(firstSetup) => p.(phase := AtCursor(if firstSetup then 0 else p.stored))
    case Answer(batch) =>
      if p.phase.AtCursor? then
        p.(phase := InBatch(p.phase.cursor, Fresh(batch.items, p.phase.cursor), batch.next, batch.done, false))
      else p
    case Done(commit) =>
      if p.phase.InBatch? && p.phase.todo != [] then
        p.(stored := commit.nsu, committed := p.committed + [commit],
           phase := p.phase.(todo := p.phase.todo[1..], poison := false))
      else p
    case Failed(nsu) =>
      var attempts := Again(p.failures, nsu);
      p.(failures := FailedAt(nsu, attempts),
         phase := if p.phase.InBatch? && attempts >= MAX_ITEM_ATTEMPTS then p.phase.(poison := true) else Idle)
    case Checkpoint =>
      if p.phase.InBatch? then
        p.(stored := Max(p.stored, p.phase.next),
           phase := if p.phase.done || p.phase.next <= p.phase.from then Idle else AtCursor(p.phase.next))
      else p
    case Stop => p.(phase := Idle)
    case Reset => p.(stored := 0, failures := NoFailure, phase := Idle, committed := [])
  }

  const INITIAL: Proto := Proto(0, NoFailure, Idle, [])

  /** The state after a history, or None when some event of it was not allowed. */
  function Replay(history: seq<Event>): Option<Proto> {
    if history == [] then Some(INITIAL)
    else
      var before := Replay(history[..|history| - 1]);
      var e := history[|history| - 1];
      if before.Some? && Allowed(before.value, e) then Some(Next(before.value, e)) else None
  }

  lemma ReplayAppend(history: seq<Event>, e: Event)
    requires Replay(history).Some? && Allowed(Replay(history).value, e)
    ensures Replay(history + [e]) == Some(Next(Replay(history).value, e))
  {
    assert (history + [e])[..|history|] == history;
  }

  lemma {:induction false} PrefixReplays(history: seq<Event>, i: nat)
    requires Replay(history).Some? && i <= |history|
    ensures Replay(history[..i]).Some?
    ensures i < |history| ==> Allowed(Replay(history[..i]).value, history[i])
    ensures i < |history| ==> Replay(history[..i + 1]) == Some(Next(Replay(history[..i]).value, history[i]))
  {
    var n := |history| - 1;
    if i < n {
      assert history[..n][..i] == history[..i] && history[..n][..i + 1] == history[..i + 1];
      PrefixReplays(history[..n], i);
    } else if i == n {
      assert history[..i + 1] == history;
    } else {
      assert history[..i] == history;
    }
  }

  // ----- honest answers -----

  predicate Ascending(items: seq<Item>) {
    forall i, j :: 0 <= i < j < |items| ==> items[i].nsu < items[j].nsu
  }

  predicate Among(items: seq<Item>, nsu: Nsu) {
    exists i :: 0 <= i < |items| && items[i].nsu == nsu
  }

  /** The answer holds, in order, every queue item between the cursor and the cursor it returns. */
  predicate Honest(queue: set<Nsu>, cursor: Nsu, batch: Batch) {
    && Ascending(Fresh(batch.items, cursor))
    && (forall i :: 0 <= i < |Fresh(batch.items, cursor)| ==> Fresh(batch.items, cursor)[i].nsu <= batch.next)
    && (forall n :: n in queue && cursor < n <= batch.next ==> Among(batch.items, n))
  }

  predicate HonestAt(queue: set<Nsu>, p: Proto, e: Event) {
    e.Answer? && p.phase.AtCursor? ==> Honest(queue, p.phase.cursor, e.batch)
  }

  predicate HonestHistory(queue: set<Nsu>, history: seq<Event>)
    requires Replay(history).Some?
  {
    forall i {:trigger history[i]} :: 0 <= i < |history| ==>
      Replay(history[..i]).Some? && HonestAt(queue, Replay(history[..i]).value, history[i])
  }

  lemma {:induction false} FreshMembers(items: seq<Item>, cursor: Nsu)
    ensures forall i :: 0 <= i < |Fresh(items, cursor)| ==> Fresh(items, cursor)[i].nsu > cursor
    ensures forall n: Nsu :: Among(Fresh(items, cursor), n) <==> Among(items, n) && n > cursor
  {
    if items != [] {
      FreshMembers(items[1..], cursor);
      var rest := Fresh(items[1..], cursor);
      var all := Fresh(items, cursor);
      assert items[1..] == items[1..];
      forall n: Nsu
        ensures Among(all, n) <==> Among(items, n) && n > cursor
      {
        if Among(items[1..], n) {
          var i :| 0 <= i < |items[1..]| && items[1..][i].nsu == n;
          assert items[i + 1].nsu == n;
        }
        if Among(rest, n) {
          var i :| 0 <= i < |rest| && rest[i].nsu == n;
          assert all[if items[0].nsu > cursor then i + 1 else i].nsu == n;
        }
        if Among(items, n) && n > cursor {
          var i :| 0 <= i < |items| && items[i].nsu == n;
          if i > 0 {
            assert items[1..][i - 1].nsu == n;
          } else {
            assert all[0].nsu == n;
          }
        }
        if Among(all, n) {
          var i :| 0 <= i < |all| && all[i].nsu == n;
          if items[0].nsu > cursor && i == 0 {
            assert items[0].nsu == n;
          } else {
            assert rest[if items[0].nsu > cursor then i - 1 else i].nsu == n;
          }
        }
      }
    }
  }

  // ----- nothing is lost -----

  predicate Committed(p: Proto, nsu: Nsu) {
    exists i :: 0 <= i < |p.committed| && p.committed[i].nsu == nsu
  }

  /** Every queue item above 0 up to a cursor was committed since the last reset. */
  predicate CommittedUpTo(queue: set<Nsu>, p: Proto, cursor: Nsu) {
    forall n :: n in queue && 0 < n <= cursor ==> Committed(p, n)
  }

  predicate NothingLost(queue: set<Nsu>, p: Proto) {
    && CommittedUpTo(queue, p, p.stored)
    && (p.phase.AtCursor? ==> CommittedUpTo(queue, p, p.phase.cursor))
    && (p.phase.InBatch? ==> BatchCovers(queue, p, p.phase))
  }

  /** What the batch in progress still owes is in its list, in order. */
  predicate BatchCovers(queue: set<Nsu>, p: Proto, phase: Phase)
    requires phase.InBatch?
  {
    && CommittedUpTo(queue, p, phase.from)
    && Ascending(phase.todo)
    && (forall i :: 0 <= i < |phase.todo| ==> phase.from < phase.todo[i].nsu <= phase.next)
    && (forall n :: n in queue && phase.from < n <= phase.next && 0 < n ==> Committed(p, n) || Among(phase.todo, n))
  }

  lemma AnswerLosesNothing(queue: set<Nsu>, p: Proto, batch: Batch)
    requires NothingLost(queue, p) && p.phase.AtCursor? && Honest(queue, p.phase.cursor, batch)
    ensures NothingLost(queue, Next(p, Answer(batch)))
  {
    FreshMembers(batch.items, p.phase.cursor);
    var q := Next(p, Answer(batch));
    assert q.committed == p.committed;
    forall n | n in queue && 0 < n
      ensures Committed(q, n) <==> Committed(p, n)
    {
    }
  }

  lemma CommitLosesNothing(queue: set<Nsu>, p: Proto, commit: Commit)
    requires NothingLost(queue, p) && Allowed(p, Done(commit))
    ensures NothingLost(queue, Next(p, Done(commit)))
  {
    var q := Next(p, Done(commit));
    var todo := p.phase.todo;
    forall n | Committed(p, n) || n == commit.nsu
      ensures Committed(q, n)
    {
      if Committed(p, n) {
        var i :| 0 <= i < |p.committed| && p.committed[i].nsu == n;
        assert q.committed[i].nsu == n;
      } else {
        assert q.committed[|p.committed|].nsu == n;
      }
    }
    forall n | n in queue && p.phase.from < n <= p.phase.next && 0 < n
      ensures Committed(q, n) || (Among(todo[1..], n) && n > commit.nsu)
    {
      if !Committed(p, n) && n != commit.nsu {
        var i :| 0 <= i < |todo| && todo[i].nsu == n;
        assert todo[1..][i - 1].nsu == n;
      }
    }
  }

  lemma StepLosesNothing(queue: set<Nsu>, p: Proto, e: Event)
    requires NothingLost(queue, p) && Allowed(p, e) && HonestAt(queue, p, e)
    ensures NothingLost(queue, Next(p, e))
  {
    match e
    case Answer(batch) => AnswerLosesNothing(queue, p, batch);
    case Done(commit) => CommitLosesNothing(queue, p, commit);
    case _ =>
  }

  lemma HonestPrefix(queue: set<Nsu>, history: seq<Event>, i: nat)
    requires Replay(history).Some? && HonestHistory(queue, history) && i <= |history|
    ensures Replay(history[..i]).Some? && HonestHistory(queue, history[..i])
  {
    PrefixReplays(history, i);
    forall k | 0 <= k < i
      ensures Replay(history[..i][..k]).Some? && HonestAt(queue, Replay(history[..i][..k]).value, history[..i][k])
    {
      assert history[..i][..k] == history[..k] && history[..i][k] == history[k];
    }
  }

  /**
   Whatever fails, is cancelled or crashes, in whatever mode: every queue item up to the stored cursor
   was committed as stored, duplicate, skipped or unsupported.
   */
  lemma {:induction false} NoItemIsLost(queue: set<Nsu>, history: seq<Event>)
    requires Replay(history).Some? && HonestHistory(queue, history)
    ensures NothingLost(queue, Replay(history).value)
  {
    if history != [] {
      var n := |history| - 1;
      HonestPrefix(queue, history, n);
      NoItemIsLost(queue, history[..n]);
      assert HonestAt(queue, Replay(history[..n]).value, history[n]);
      StepLosesNothing(queue, Replay(history[..n]).value, history[n]);
    }
  }

  // ----- normal mode: the cursor never goes back -----

  /** Nothing left to do lies at or behind the stored cursor: so when idle, and when a normal run begins. */
  predicate Ahead(p: Proto) {
    && (p.phase.AtCursor? ==> p.phase.cursor == p.stored)
    && (p.phase.InBatch? ==>
          && p.phase.from <= p.stored && Ascending(p.phase.todo)
          && (p.phase.next < p.stored ==> p.phase.next <= p.phase.from)
          && forall i :: 0 <= i < |p.phase.todo| ==> p.stored < p.phase.todo[i].nsu <= p.phase.next)
  }

  /** From here on no reset and no first setup. */
  predicate QuietFrom(history: seq<Event>, i: nat) {
    forall k :: i <= k < |history| ==> history[k] != Start(true) && !history[k].Reset?
  }

  /** From here on every answer is in order and within the cursor it returns. */
  predicate OrderedFrom(history: seq<Event>, i: nat)
    requires Replay(history).Some?
  {
    forall k {:trigger history[k]} :: i <= k < |history| ==>
      Replay(history[..k]).Some? && HonestAt({}, Replay(history[..k]).value, history[k])
  }

  /** A moment from which the cursor only moves onward, whatever came before it. */
  predicate Onward(history: seq<Event>, i: nat) {
    && i <= |history| && Replay(history).Some? && Replay(history[..i]).Some?
    && Ahead(Replay(history[..i]).value) && OrderedFrom(history, i) && QuietFrom(history, i)
  }

  /** What was committed since then came in order, above the cursor stored then and up to the one stored now. */
  predicate Since(was: Proto, p: Proto) {
    && was.committed <= p.committed && was.stored <= p.stored
    && (forall k :: |was.committed| <= k < |p.committed| ==> was.stored < p.committed[k].nsu <= p.stored)
    && (forall k, m :: |was.committed| <= k < m < |p.committed| ==> p.committed[k].nsu < p.committed[m].nsu)
  }

  lemma StepAhead(was: Proto, p: Proto, e: Event)
    requires Ahead(p) && Since(was, p) && Allowed(p, e) && HonestAt({}, p, e) && e != Start(true) && !e.Reset?
    ensures Ahead(Next(p, e)) && Since(was, Next(p, e))
  {
    if e.Answer? {
      FreshMembers(e.batch.items, p.phase.cursor);
    }
  }

  lemma OnwardPrefix(history: seq<Event>, i: nat, j: nat)
    requires Onward(history, i) && i <= j <= |history|
    ensures Onward(history[..j], i)
  {
    PrefixReplays(history, j);
    assert history[..j][..i] == history[..i];
    forall k | i <= k < j
      ensures Replay(history[..j][..k]).Some? && HonestAt({}, Replay(history[..j][..k]).value, history[..j][k])
    {
      assert history[..j][..k] == history[..k] && history[..j][k] == history[k];
    }
  }

  lemma {:induction false} RunsOnward(history: seq<Event>, i: nat)
    requires Onward(history, i)
    ensures Ahead(Replay(history).value) && Since(Replay(history[..i]).value, Replay(history).value)
  {
    var n := |history| - 1;
    if i <= n {
      OnwardPrefix(history, i, n);
      RunsOnward(history[..n], i);
      assert history[..n][..i] == history[..i];
      assert HonestAt({}, Replay(history[..n]).value, history[n]);
      StepAhead(Replay(history[..i]).value, Replay(history[..n]).value, history[n]);
    } else {
      assert history[..i] == history;
    }
  }

  /** Any later moment will do as well. */
  lemma OnwardLater(history: seq<Event>, i: nat, j: nat)
    requires Onward(history, i) && i <= j <= |history|
    ensures Onward(history, j) && Since(Replay(history[..j]).value, Replay(history).value)
  {
    hide Since, Ahead, HonestAt, Replay;
    OnwardPrefix(history, i, j);
    RunsOnward(history[..j], i);
    StillOrdered(history, i, j);
    RunsOnward(history, j);
  }

  lemma StillOrdered(history: seq<Event>, i: nat, j: nat)
    requires Replay(history).Some? && OrderedFrom(history, i) && i <= j
    ensures OrderedFrom(history, j)
  {
    hide HonestAt;
    forall k | j <= k < |history|
      ensures Replay(history[..k]).Some? && HonestAt({}, Replay(history[..k]).value, history[k])
    {
      assert history[k] == history[k];
    }
  }

  /** From such a moment on the stored cursor never goes back. */
  lemma CursorNeverGoesBack(history: seq<Event>, i: nat, j: nat)
    requires Onward(history, i) && i <= j <= |history|
    ensures Replay(history[..j]).Some? && Replay(history[..j]).value.stored <= Replay(history).value.stored
  {
    OnwardLater(history, i, j);
  }

  /** Over all runs since then, not only within one, an item is committed at most once, in NSU order. */
  lemma EachItemCommittedOnce(history: seq<Event>, i: nat, k: nat, m: nat)
    requires Onward(history, i)
    requires |Replay(history[..i]).value.committed| <= k < m < |Replay(history).value.committed|
    ensures Replay(history).value.committed[k].nsu < Replay(history).value.committed[m].nsu
    ensures Replay(history[..i]).value.stored < Replay(history).value.committed[k].nsu
  {
    RunsOnward(history, i);
  }

  /** What lies behind the stored cursor and is not committed never will be. */
  lemma LostStaysLost(history: seq<Event>, i: nat, j: nat, n: Nsu)
    requires Onward(history, i) && i <= j <= |history| && Replay(history[..j]).Some?
    requires n <= Replay(history[..j]).value.stored && !Committed(Replay(history[..j]).value, n)
    ensures n <= Replay(history).value.stored && !Committed(Replay(history).value, n)
  {
    OnwardLater(history, i, j);
    var was, p := Replay(history[..j]).value, Replay(history).value;
    forall k | 0 <= k < |p.committed|
      ensures p.committed[k].nsu != n
    {
      if k < |was.committed| {
        assert p.committed[k] == was.committed[k];
      }
    }
  }

  /** A step lowers the stored cursor exactly when it resets it from above 0, or commits an item behind it. */
  lemma LoweredExactly(p: Proto, e: Event)
    requires Allowed(p, e)
    ensures Next(p, e).stored < p.stored <==> (e.Reset? && p.stored > 0) || (e.Done? && e.commit.nsu < p.stored)
  {
  }

  /** The latest run began as a first setup. */
  predicate InFirstSetup(history: seq<Event>) {
    history != [] &&
    var e := history[|history| - 1];
    if e.Start? then e.firstSetup else InFirstSetup(history[..|history| - 1])
  }

  lemma {:induction false} OtherwiseAhead(history: seq<Event>)
    requires Replay(history).Some? && HonestHistory({}, history)
    ensures !InFirstSetup(history) ==> Ahead(Replay(history).value)
  {
    if history != [] {
      var n := |history| - 1;
      HonestPrefix({}, history, n);
      OtherwiseAhead(history[..n]);
      assert HonestAt({}, Replay(history[..n]).value, history[n]);
      var p := Replay(history[..n]).value;
      if !history[n].Start? && !history[n].Reset? && !InFirstSetup(history[..n]) {
        StepAhead(p, p.(committed := p.committed), history[n]);
      }
    }
  }

  /** With answers in order only a run begun as a first setup commits behind the stored cursor. */
  lemma OnlyFirstSetupLowers(history: seq<Event>, k: nat)
    requires Replay(history).Some? && HonestHistory({}, history) && k < |history| && history[k].Done?
    requires Replay(history[..k]).Some? && history[k].commit.nsu < Replay(history[..k]).value.stored
    ensures InFirstSetup(history[..k])
  {
    PrefixReplays(history, k);
    HonestPrefix({}, history, k);
    OtherwiseAhead(history[..k]);
  }

  // ----- what the claims rest on -----

  /**
   A crash after k commits leaves the k-th NSU stored, and the rest above it will be fetched again.
   That holds for every k exactly when the items come in strictly ascending order.
   */
  lemma CrashSafeExactlyWhenAscending(todo: seq<Item>)
    ensures (forall k, j {:trigger todo[k], todo[j]} :: 0 <= k < j < |todo| ==>
              todo[j] in Fresh(todo, todo[k].nsu)) <==> Ascending(todo)
  {
    forall k, j | 0 <= k < j < |todo|
      ensures todo[j] in Fresh(todo, todo[k].nsu) <==> todo[k].nsu < todo[j].nsu
    {
      FreshIs(todo, todo[k].nsu, todo[j]);
    }
  }

  lemma {:induction false} FreshIs(items: seq<Item>, cursor: Nsu, item: Item)
    ensures item in Fresh(items, cursor) <==> item in items && item.nsu > cursor
  {
    if items != [] {
      FreshIs(items[1..], cursor, item);
      assert items == [items[0]] + items[1..];
    }
  }

  predicate AllCommits(events: seq<Event>) {
    forall i :: 0 <= i < |events| ==> events[i].Done?
  }

  /** Commits take the list in order and one by one. */
  lemma {:induction false} CommitsFollowTheList(history: seq<Event>, dones: seq<Event>)
    requires Replay(history + dones).Some? && AllCommits(dones)
    ensures Replay(history).Some?
    ensures var p := Replay(history).value;
            var q := Replay(history + dones).value;
            if !p.phase.InBatch? then dones == []
            else
              && q.phase.InBatch? && q.phase.from == p.phase.from && q.phase.next == p.phase.next
              && |dones| <= |p.phase.todo| && q.phase.todo == p.phase.todo[|dones|..]
              && (forall n: Nsu :: Committed(q, n) <==> Committed(p, n) || Among(p.phase.todo[..|dones|], n))
              && q.stored == if dones == [] then p.stored else p.phase.todo[|dones| - 1].nsu
  {
    if dones == [] {
      assert history + dones == history;
    } else {
      var k := |dones| - 1;
      var before := history + dones[..k];
      assert (history + dones)[..|history + dones| - 1] == before;
      assert (history + dones)[|history + dones| - 1] == dones[k];
      CommitsFollowTheList(history, dones[..k]);
      var p, m, q := Replay(history).value, Replay(before).value, Replay(history + dones).value;
      if p.phase.InBatch? {
        var todo := p.phase.todo;
        assert todo[k..][0] == todo[k];
        forall n: Nsu
          ensures Committed(q, n) <==> Committed(p, n) || Among(todo[..k + 1], n)
        {
          CommittedAppend(m, q, dones[k].commit, n);
          AmongAppend(todo, k, n);
        }
      }
    }
  }

  lemma CommittedAppend(p: Proto, q: Proto, commit: Commit, n: Nsu)
    requires q.committed == p.committed + [commit]
    ensures Committed(q, n) <==> Committed(p, n) || n == commit.nsu
  {
    if Committed(p, n) {
      var i :| 0 <= i < |p.committed| && p.committed[i].nsu == n;
      assert q.committed[i].nsu == n;
    }
    if n == commit.nsu {
      assert q.committed[|p.committed|].nsu == n;
    }
  }

  lemma AmongAppend(items: seq<Item>, k: nat, n: Nsu)
    requires k < |items|
    ensures Among(items[..k + 1], n) <==> Among(items[..k], n) || n == items[k].nsu
  {
    if Among(items[..k], n) {
      var i :| 0 <= i < k && items[..k][i].nsu == n;
      assert items[..k + 1][i].nsu == n;
    }
    if n == items[k].nsu {
      assert items[..k + 1][k].nsu == n;
    }
  }

  /**
   A batch that runs to its checkpoint commits exactly its fresh items: an item of the queue that the
   answer leaves out is lost if and only if the returned cursor lies past it.
   */
  lemma OmittedIsLostExactlyBehindTheCursor(history: seq<Event>, batch: Batch, dones: seq<Event>, n: Nsu)
    requires Replay(history).Some? && Replay(history).value.phase.AtCursor?
    requires Replay(history + [Answer(batch)] + dones + [Checkpoint]).Some? && AllCommits(dones)
    requires var p := Replay(history).value;
             && Ahead(p) && Honest({}, p.phase.cursor, batch) && n > p.phase.cursor && p.phase.cursor <= batch.next
    ensures var p, q := Replay(history).value, Replay(history + [Answer(batch)] + dones + [Checkpoint]).value;
            && q.stored == batch.next
            && (Committed(q, n) <==> Committed(p, n) || Among(batch.items, n))
            && (n <= q.stored && !Committed(q, n) <==> n <= batch.next && !Among(batch.items, n) && !Committed(p, n))
  {
    var p := Replay(history).value;
    var asked := history + [Answer(batch)];
    var all := asked + dones + [Checkpoint];
    assert all[..|all| - 1] == asked + dones;
    CommitsFollowTheList(asked, dones);
    ReplayAppend(history, Answer(batch));
    FreshMembers(batch.items, p.phase.cursor);
    var q := Replay(asked + dones).value;
    var todo := Fresh(batch.items, p.phase.cursor);
    assert todo[..|todo|] == todo;
    assert Replay(all).value.committed == q.committed && Replay(asked).value.committed == p.committed;
    assert Committed(Replay(asked).value, n) <==> Committed(p, n);
    assert Among(todo, n) <==> Among(batch.items, n);
    assert Committed(Replay(all).value, n) <==> Committed(q, n);
  }

  /** A first setup starts over at 0 and moves the stored cursor back. */
  lemma FirstSetupMovesBack()
    ensures var before :=
              [Start(false)] + [Answer(Batch([Item(5, false)], 5, true))] + [Done(Commit(5, Stored))] + [Checkpoint];
            var after := before + [Start(true)] + [Answer(Batch([Item(3, false)], 5, true))]
                         + [Done(Commit(3, Stored))];
            && Replay(before).Some? && Replay(before).value.stored == 5
            && Replay(after).Some? && Replay(after).value.stored == 3
  {
    var h: seq<Event> := [];
    ReplayAppend(h, Start(false));
    h := [Start(false)];
    assert [] + h == h;
    var five, three := [Item(5, false)], [Item(3, false)];
    assert Fresh(five, 0) == five && Fresh(three, 0) == three;
    ReplayAppend(h, Answer(Batch(five, 5, true)));
    h := h + [Answer(Batch(five, 5, true))];
    ReplayAppend(h, Done(Commit(5, Stored)));
    h := h + [Done(Commit(5, Stored))];
    ReplayAppend(h, Checkpoint);
    h := h + [Checkpoint];
    ReplayAppend(h, Start(true));
    h := h + [Start(true)];
    ReplayAppend(h, Answer(Batch(three, 5, true)));
    h := h + [Answer(Batch(three, 5, true))];
    ReplayAppend(h, Done(Commit(3, Stored)));
  }

  // ----- poison items -----

  function FailedNsus(history: seq<Event>): seq<Nsu> {
    if history == [] then []
    else
      var e := history[|history| - 1];
      if e.Reset? then []
      else FailedNsus(history[..|history| - 1]) + if e.Failed? then [e.nsu] else []
  }

  /** The last k recorded failures were all of that item. */
  predicate LastFailures(history: seq<Event>, k: nat, nsu: Nsu) {
    var f := FailedNsus(history);
    k <= |f| && forall i :: |f| - k <= i < |f| ==> f[i] == nsu
  }

  /** attempts is exactly the number of times in a row the last failed item failed. */
  lemma {:induction false} AttemptsAreConsecutive(history: seq<Event>)
    requires Replay(history).Some?
    ensures var p := Replay(history).value;
            match p.failures
            case NoFailure => FailedNsus(history) == []
            case FailedAt(nsu, attempts) =>
              && attempts > 0 && LastFailures(history, attempts, nsu) && !LastFailures(history, attempts + 1, nsu)
  {
    if history != [] {
      var n := |history| - 1;
      AttemptsAreConsecutive(history[..n]);
      if history[n].Failed? {
        OneMoreFailure(history[..n], history[n].nsu, Replay(history[..n]).value.failures);
        assert history[..n] + [history[n]] == history;
      } else if !history[n].Reset? {
        assert FailedNsus(history) == FailedNsus(history[..n]);
      }
    }
  }

  lemma OneMoreFailure(history: seq<Event>, nsu: Nsu, failures: Failures)
    requires match failures
             case NoFailure => FailedNsus(history) == []
             case FailedAt(n, attempts) =>
               attempts > 0 && LastFailures(history, attempts, n) && !LastFailures(history, attempts + 1, n)
    ensures var now := history + [Failed(nsu)];
            LastFailures(now, Again(failures, nsu), nsu) && !LastFailures(now, Again(failures, nsu) + 1, nsu)
  {
    var now := history + [Failed(nsu)];
    assert now[..|history|] == history;
    var f, g := FailedNsus(history), FailedNsus(now);
    assert g == f + [nsu];
    var k := Again(failures, nsu);
    if k + 1 <= |g| {
      if failures.FailedAt? && failures.nsu == nsu {
        var i :| |f| - k <= i < |f| && f[i] != nsu;
        assert g[i] != nsu;
      } else {
        assert g[|f| - 1] == f[|f| - 1] == failures.nsu;
      }
    }
  }

  /** An item is in front for giving up only after its last three recorded failures. */
  lemma {:induction false} PoisonNeedsThree(history: seq<Event>)
    requires Replay(history).Some?
    ensures var p := Replay(history).value;
            p.phase.InBatch? && p.phase.poison ==>
              && p.phase.todo != [] && p.failures.FailedAt?
              && p.failures.nsu == p.phase.todo[0].nsu && p.failures.attempts >= MAX_ITEM_ATTEMPTS
  {
    if history != [] {
      PoisonNeedsThree(history[..|history| - 1]);
    }
  }

  /** The pull gives up on the item in front: the commit that follows its failure in the same run. */
  predicate GivesUp(history: seq<Event>, i: nat)
    requires Replay(history).Some? && i < |history|
  {
    && history[i].Done? && Replay(history[..i]).Some?
    && Replay(history[..i]).value.phase.InBatch? && Replay(history[..i]).value.phase.poison
  }

  lemma PoisonOnlyAfterThreeFailures(history: seq<Event>, i: nat)
    requires Replay(history).Some? && i < |history| && GivesUp(history, i)
    ensures history[i].commit.outcome == Unsupported
    ensures LastFailures(history[..i], 3, history[i].commit.nsu)
  {
    PrefixReplays(history, i);
    PoisonNeedsThree(history[..i]);
    AttemptsAreConsecutive(history[..i]);
  }

  lemma LongStreak(history: seq<Event>, j: nat, k: nat, n: Nsu)
    requires j <= k && LastFailures(history, k, n)
    ensures LastFailures(history, j, n)
  {
    hide FailedNsus;
  }

  /** A failure ends the run exactly while fewer than three in a row are recorded; the third can give the item up. */
  lemma ThirdFailureDoesNotStop(history: seq<Event>)
    requires Replay(history).Some? && history != [] && history[|history| - 1].Failed?
    ensures var p := Replay(history).value;
            var nsu := history[|history| - 1].nsu;
            (p.phase.Idle? <==> !LastFailures(history, 3, nsu)) &&
            (!p.phase.Idle? ==> && Allowed(p, Done(Commit(nsu, Unsupported)))
                                && Next(p, Done(Commit(nsu, Unsupported))).stored == nsu)
  {
    hide LastFailures;
    AttemptsAreConsecutive(history);
    var p, nsu := Replay(history).value, history[|history| - 1].nsu;
    if LastFailures(history, 3, nsu) {
      StreakIsStored(history, nsu);
    } else if p.failures.attempts >= MAX_ITEM_ATTEMPTS {
      LongStreak(history, MAX_ITEM_ATTEMPTS, p.failures.attempts, nsu);
    }
  }

  // ----- three runs stopped by one item -----

  predicate Poisoned(p: Proto) {
    p.phase.InBatch? && p.phase.poison
  }

  /** Nothing comes between the failure that lets an item be given up and its commit. */
  predicate Prompt(history: seq<Event>)
    requires Replay(history).Some?
  {
    forall i {:trigger history[i]} :: 0 <= i < |history| && Replay(history[..i]).Some?
                                      && Poisoned(Replay(history[..i]).value) ==>
      history[i].Done?
  }

  /** Prompt so far, and no item waits to be given up. */
  predicate Settled(history: seq<Event>) {
    Replay(history).Some? && Prompt(history) && !Poisoned(Replay(history).value)
  }

  lemma PromptAppend(history: seq<Event>, e: Event)
    requires Replay(history).Some? && Replay(history + [e]).Some? && Prompt(history)
    requires Poisoned(Replay(history).value) ==> e.Done?
    ensures Prompt(history + [e])
  {
    var after := history + [e];
    forall i | 0 <= i < |after| && Replay(after[..i]).Some? && Poisoned(Replay(after[..i]).value)
      ensures after[i].Done?
    {
      if i < |history| {
        assert after[..i] == history[..i] && after[i] == history[i];
      } else {
        assert after[..i] == history;
      }
    }
  }

  lemma PromptPrefix(history: seq<Event>)
    requires history != [] && Replay(history).Some? && Prompt(history)
    ensures Prompt(history[..|history| - 1])
    ensures Poisoned(Replay(history[..|history| - 1]).value) ==> history[|history| - 1].Done?
  {
    var front := history[..|history| - 1];
    forall i | 0 <= i < |front| && Replay(front[..i]).Some? && Poisoned(Replay(front[..i]).value)
      ensures front[i].Done?
    {
      assert front[..i] == history[..i] && front[i] == history[i];
    }
    assert history[|history| - 1] == history[|history| - 1];
  }

  lemma SettledAppend(history: seq<Event>, e: Event)
    requires Settled(history) && Allowed(Replay(history).value, e) && !Poisoned(Next(Replay(history).value, e))
    ensures Settled(history + [e])
  {
    ReplayAppend(history, e);
    PromptAppend(history, e);
  }

  /** The third failure in a row and the commit that gives the item up. */
  lemma SettledGivesUp(history: seq<Event>, n: Nsu, commit: Commit)
    requires Settled(history) && Allowed(Replay(history).value, Failed(n))
    requires Allowed(Next(Replay(history).value, Failed(n)), Done(commit))
    ensures Settled(history + [Failed(n)] + [Done(commit)])
  {
    ReplayAppend(history, Failed(n));
    ReplayAppend(history + [Failed(n)], Done(commit));
    PromptAppend(history, Failed(n));
    PromptAppend(history + [Failed(n)], Done(commit));
  }

  lemma FailedAppend(history: seq<Event>, e: Event)
    requires !e.Reset?
    ensures FailedNsus(history + [e]) == FailedNsus(history) + if e.Failed? then [e.nsu] else []
  {
    assert (history + [e])[..|history|] == history;
  }

  /** An item whose streak reached three was committed, once nothing waits. */
  lemma {:induction false} StreakIsCommitted(history: seq<Event>)
    requires Replay(history).Some? && Prompt(history)
    ensures var p := Replay(history).value;
            p.failures.FailedAt? && p.failures.attempts >= MAX_ITEM_ATTEMPTS && !Poisoned(p) ==>
              Committed(p, p.failures.nsu)
  {
    if history != [] {
      var n := |history| - 1;
      var p, e := Replay(history[..n]).value, history[n];
      PromptPrefix(history);
      StreakIsCommitted(history[..n]);
      PoisonNeedsThree(history[..n]);
      if e.Done? {
        if p.failures.FailedAt? {
          CommittedAppend(p, Next(p, e), e.commit, p.failures.nsu);
        }
      }
    }
  }

  predicate NoResetFrom(history: seq<Event>, i: nat) {
    forall k :: i <= k < |history| ==> !history[k].Reset?
  }

  predicate CommittedSince(was: Proto, p: Proto, n: Nsu) {
    exists k :: |was.committed| <= k < |p.committed| && p.committed[k].nsu == n
  }

  /** Commits are only forgotten by a reset. */
  lemma {:induction false} CommitsStay(history: seq<Event>, i: nat)
    requires Replay(history).Some? && i <= |history| && NoResetFrom(history, i)
    ensures Replay(history[..i]).Some? && Replay(history[..i]).value.committed <= Replay(history).value.committed
    ensures FailedNsus(history[..i]) <= FailedNsus(history)
  {
    var n := |history| - 1;
    if i <= n {
      CommitsStay(history[..n], i);
      assert history[..n][..i] == history[..i];
      assert !history[n].Reset?;
    } else {
      assert history[..i] == history;
    }
  }

  /** An item whose streak reached three since some moment was committed since that moment. */
  lemma {:induction false} StreakIsCommittedSince(history: seq<Event>, i: nat)
    requires Replay(history).Some? && Prompt(history) && i <= |history| && NoResetFrom(history, i)
    ensures Replay(history[..i]).Some?
    ensures var p := Replay(history).value;
            |FailedNsus(history)| > |FailedNsus(history[..i])| && p.failures.FailedAt? && !Poisoned(p)
            && p.failures.attempts >= MAX_ITEM_ATTEMPTS ==>
              CommittedSince(Replay(history[..i]).value, p, p.failures.nsu)
  {
    CommitsStay(history, i);
    var n := |history| - 1;
    if i <= n {
      assert history[..n][..i] == history[..i];
      PromptPrefix(history);
      StreakIsCommittedSince(history[..n], i);
      PoisonNeedsThree(history[..n]);
      CommitsStay(history[..n], i);
      assert !history[n].Reset?;
      SinceStep(Replay(history[..i]).value, Replay(history[..n]).value, history[n]);
    } else {
      assert history[..i] == history;
    }
  }

  lemma SinceStep(was: Proto, p: Proto, e: Event)
    requires Allowed(p, e) && !e.Reset? && was.committed <= p.committed
    ensures forall n: Nsu :: CommittedSince(was, p, n) ==> CommittedSince(was, Next(p, e), n)
    ensures e.Done? ==> CommittedSince(was, Next(p, e), e.commit.nsu)
  {
    var q := Next(p, e);
    forall n: Nsu | CommittedSince(was, p, n)
      ensures CommittedSince(was, q, n)
    {
      var k :| |was.committed| <= k < |p.committed| && p.committed[k].nsu == n;
      assert q.committed[k] == p.committed[k];
    }
    if e.Done? {
      assert q.committed[|p.committed|].nsu == e.commit.nsu;
    }
  }

  /**
   When the last three recorded failures are all of one item and none of them was cut short, the item was
   committed; and the stored cursor is past it when the third came since a moment with the cursor onward.
   */
  lemma ThreeFailuresMovePast(history: seq<Event>, n: Nsu, i: nat)
    requires Settled(history) && LastFailures(history, 3, n)
    ensures Committed(Replay(history).value, n)
    ensures Onward(history, i) && |FailedNsus(history)| > |FailedNsus(history[..i])| ==>
              n <= Replay(history).value.stored
  {
    hide LastFailures, Committed, Ahead, Replay, Prompt, FailedNsus, OrderedFrom;
    StreakIsStored(history, n);
    StreakIsCommitted(history);
    if Onward(history, i) && |FailedNsus(history)| > |FailedNsus(history[..i])| {
      StreakIsCommittedSince(history, i);
      RunsOnward(history, i);
    }
  }

  /** The stored counter shows any streak of three. */
  lemma StreakIsStored(history: seq<Event>, n: Nsu)
    requires Replay(history).Some? && LastFailures(history, MAX_ITEM_ATTEMPTS, n)
    ensures var f := Replay(history).value.failures; f.FailedAt? && f.nsu == n && f.attempts >= MAX_ITEM_ATTEMPTS
  {
    hide Replay, FailedNsus;
    AttemptsAreConsecutive(history);
    var f := FailedNsus(history);
    assert f[|f| - 1] == n;
  }

  /** Where the failures after some moment begin. */
  lemma {:induction false} FirstFailure(history: seq<Event>, i: nat, n: Nsu) returns (k: nat)
    requires i <= |history| && NoResetFrom(history, i) && FailedNsus(history[..i]) + [n] <= FailedNsus(history)
    ensures i <= k < |history| && history[k] == Failed(n) && FailedNsus(history[..k]) == FailedNsus(history[..i])
  {
    assert history[..|history|] == history;
    assert i < |history|;
    var m := |history| - 1;
    assert history[..m][..i] == history[..i] && !history[m].Reset?;
    var before, after := FailedNsus(history[..i]), FailedNsus(history[..m]);
    FailuresGrow(history[..m], i);
    assert FailedNsus(history) == after + if history[m].Failed? then [history[m].nsu] else [];
    if |after| > |before| {
      assert after[|before|] == (before + [n])[|before|];
      k := FirstFailure(history[..m], i, n);
      assert history[..m][..k] == history[..k];
    } else {
      assert after == before;
      assert FailedNsus(history)[|before|] == n;
      k := m;
    }
  }

  lemma {:induction false} FailuresGrow(history: seq<Event>, i: nat)
    requires i <= |history| && NoResetFrom(history, i)
    ensures FailedNsus(history[..i]) <= FailedNsus(history)
  {
    var n := |history| - 1;
    if i <= n {
      FailuresGrow(history[..n], i);
      assert history[..n][..i] == history[..i] && !history[n].Reset?;
    } else {
      assert history[..i] == history;
    }
  }

  /** The third failure in a row is followed by the commit, which leaves its NSU stored. */
  lemma ThirdIsCommitted(history: seq<Event>, k: nat, n: Nsu)
    requires Settled(history) && k < |history| && history[k] == Failed(n)
    requires LastFailures(history[..k + 1], MAX_ITEM_ATTEMPTS, n)
    ensures k + 1 < |history| && Replay(history[..k + 2]).Some?
    ensures Replay(history[..k + 2]).value.stored == n && Committed(Replay(history[..k + 2]).value, n)
  {
    hide LastFailures, FailedNsus;
    assert history[..|history|] == history;
    PrefixReplays(history, k);
    PrefixReplays(history, k + 1);
    StreakIsStored(history[..k + 1], n);
    PoisonNeedsThree(history[..k + 1]);
    assert Poisoned(Replay(history[..k + 1]).value);
    if k + 1 < |history| {
      assert history[k + 1].Done?;
      CommittedAppend(Replay(history[..k + 1]).value, Replay(history[..k + 2]).value, history[k + 1].commit, n);
    }
  }

  /** Where, in a third run, an item that stopped the two before it is committed. */
  lemma WhereGivenUp(first: seq<Nsu>, third: seq<Event>, i: nat, n: Nsu) returns (k: nat)
    requires i <= |third| && NoResetFrom(third, i) && Settled(third)
    requires first != [] && Last(first) == n && FailedNsus(third[..i]) == first + [n]
    requires first + [n] + [n] <= FailedNsus(third)
    ensures i <= k <= |third| && Replay(third[..k]).Some?
    ensures Replay(third[..k]).value.stored == n && Committed(Replay(third[..k]).value, n)
  {
    hide FailedNsus, Settled, LastFailures, Committed, NoResetFrom, Replay;
    var f := FirstFailure(third, i, n);
    assert third[..f + 1] == third[..f] + [Failed(n)];
    ThreeInARow(first, third[..f], n);
    ThirdIsCommitted(third, f, n);
    k := f + 2;
  }

  /**
   A first run stopped by an item, a second stopped by it alone, and a third that meets it first: the
   third commits it, whatever it meets afterwards, and leaves the cursor past it.
   */
  lemma ThirdRunMovesPast(first: seq<Event>, second: seq<Event>, third: seq<Event>, n: Nsu)
    requires FailedNsus(first) != [] && Last(FailedNsus(first)) == n && FailedNsus(second) == FailedNsus(first) + [n]
    requires second <= third && NoResetFrom(third, |second|) && FailedNsus(second) + [n] <= FailedNsus(third)
    requires Settled(third)
    ensures Committed(Replay(third).value, n)
    ensures Onward(third, |second|) ==> n <= Replay(third).value.stored
  {
    hide FailedNsus, Prompt, Onward, Committed, NoResetFrom, Replay;
    var i := |second|;
    assert third[..i] == second;
    var k := WhereGivenUp(FailedNsus(first), third, i, n);
    NoResetLater(third, i, k);
    StillCommitted(third, k, n);
    if Onward(third, i) {
      CursorNeverGoesBack(third, i, k);
    }
  }

  lemma NoResetLater(history: seq<Event>, i: nat, j: nat)
    requires NoResetFrom(history, i) && i <= j
    ensures NoResetFrom(history, j)
  {
  }

  lemma ThreeInARow(f: seq<Nsu>, history: seq<Event>, n: Nsu)
    requires f != [] && Last(f) == n && FailedNsus(history) == f + [n]
    ensures LastFailures(history + [Failed(n)], MAX_ITEM_ATTEMPTS, n)
  {
    hide FailedNsus;
    FailedAppend(history, Failed(n));
  }

  function Last(nsus: seq<Nsu>): Nsu
    requires nsus != []
  {
    nsus[|nsus| - 1]
  }

  lemma StillCommitted(history: seq<Event>, i: nat, n: Nsu)
    requires Replay(history).Some? && i <= |history| && NoResetFrom(history, i)
    requires Replay(history[..i]).Some? && Committed(Replay(history[..i]).value, n)
    ensures Committed(Replay(history).value, n)
  {
    CommitsStay(history, i);
    var p, q := Replay(history[..i]).value, Replay(history).value;
    var k :| 0 <= k < |p.committed| && p.committed[k].nsu == n;
    assert q.committed[k] == p.committed[k];
  }

  // ----- the end of a batch -----

  function LastAnswer(history: seq<Event>): Option<Batch> {
    if history == [] then None
    else if history[|history| - 1].Answer? then Some(history[|history| - 1].batch)
    else LastAnswer(history[..|history| - 1])
  }

  lemma LastAnswerAppend(history: seq<Event>, e: Event)
    ensures LastAnswer(history + [e]) == if e.Answer? then Some(e.batch) else LastAnswer(history)
  {
    assert (history + [e])[..|history|] == history;
  }

  /** The history ends with the checkpoint of this batch, asked for at this cursor. */
  predicate Finished(history: seq<Event>, cursor: Nsu, batch: Batch) {
    && history != [] && history[|history| - 1].Checkpoint?
    && LastAnswer(history) == Some(batch)
    && Replay(history[..|history| - 1]).Some?
    && Replay(history[..|history| - 1]).value.phase == InBatch(cursor, [], batch.next, batch.done, false)
  }

  /** Once a batch is checkpointed the whole queue up to its next cursor is committed. */
  lemma FinishedIsComplete(queue: set<Nsu>, history: seq<Event>, cursor: Nsu, batch: Batch)
    requires Replay(history).Some? && HonestHistory(queue, history) && Finished(history, cursor, batch)
    ensures batch.next <= Replay(history).value.stored
    ensures CommittedUpTo(queue, Replay(history).value, batch.next)
  {
    NoItemIsLost(queue, history);
  }
}
