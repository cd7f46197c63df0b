/**
 When a company's distribution source may be queried: the hourly request budget and the waits the
 tax authority imposes (spendRequest of internal/sync/loop.go, RecordRequest, RequestsSince and
 SetBlockedUntil of internal/sync/store.go, checkBlocked of internal/sync/errors.go), as a protocol
 over one company, source and environment. Times are whole seconds, as stored.
 */
module RequestGate {
  import opened Wrappers

  type Time = int

  const HOUR: Time := 3600
  const RETENTION: Time := 24 * 3600
  const LIMIT: nat := 20

  datatype Reason = CaughtUp | ConsumoIndevido | RateBudget

  datatype Block = Block(until: Time, reason: Reason)

  /** now.Before(BlockedUntil) */
  predicate InForce(block: Option<Block>, now: Time) {
    block.Some? && now < block.value.until
  }

  /** With onlyHard, a wait after catching up does not count: the lookup by chave ignores it. */
  predicate Blocked(block: Option<Block>, now: Time, onlyHard: bool) {
    InForce(block, now) && (onlyHard ==> !block.value.reason.CaughtUp?)
  }

  // ----- sync_requests -----

  function CountSince(rows: seq<Time>, since: Time): nat {
    if rows == [] then 0
    else CountSince(rows[..|rows| - 1], since) + if rows[|rows| - 1] >= since then 1 else 0
  }

  function OldestSince(rows: seq<Time>, since: Time): (r: Option<Time>)
    ensures r.Some? <==> CountSince(rows, since) > 0
    ensures r.None? ==> forall i :: 0 <= i < |rows| ==> rows[i] < since
    ensures r.Some? ==> r.value >= since && r.value in rows
    ensures r.Some? ==> forall i :: 0 <= i < |rows| && rows[i] >= since ==> r.value <= rows[i]
  {
    if rows == [] then None
    else
      var n := |rows| - 1;
      assert rows == rows[..n] + [rows[n]];
      var front := OldestSince(rows[..n], since);
      if rows[n] >= since && (front.None? || rows[n] < front.value) then Some(rows[n]) else front
  }

  function Prune(rows: seq<Time>, cutoff: Time): seq<Time> {
    if rows == [] then []
    else Prune(rows[..|rows| - 1], cutoff) + if rows[|rows| - 1] < cutoff then [] else [rows[|rows| - 1]]
  }

  /** Requests inside the closed hour that starts at w. */
  function CountWindow(rows: seq<Time>, w: Time): nat {
    if rows == [] then 0
    else CountWindow(rows[..|rows| - 1], w) + if w <= rows[|rows| - 1] <= w + HOUR then 1 else 0
  }

  lemma CountSinceAppend(rows: seq<Time>, t: Time, since: Time)
    ensures CountSince(rows + [t], since) == CountSince(rows, since) + if t >= since then 1 else 0
  {
    assert (rows + [t])[..|rows|] == rows;
  }

  lemma {:induction false} PruneKeepsRecent(rows: seq<Time>, cutoff: Time, since: Time)
    requires cutoff <= since
    ensures CountSince(Prune(rows, cutoff), since) == CountSince(rows, since)
  {
    if rows != [] {
      var n := |rows| - 1;
      PruneKeepsRecent(rows[..n], cutoff, since);
      var p := Prune(rows[..n], cutoff);
      if rows[n] >= cutoff {
        CountSinceAppend(p, rows[n], since);
      } else {
        assert Prune(rows, cutoff) == p;
      }
    }
  }

  lemma {:induction false} WindowWithinSince(rows: seq<Time>, w: Time, since: Time)
    requires since <= w
    ensures CountWindow(rows, w) <= CountSince(rows, since)
  {
    if rows != [] {
      WindowWithinSince(rows[..|rows| - 1], w, since);
    }
  }

  lemma {:induction false} SinceMonotone(rows: seq<Time>, s: Time, t: Time)
    requires s <= t
    ensures CountSince(rows, t) <= CountSince(rows, s)
  {
    if rows != [] {
      SinceMonotone(rows[..|rows| - 1], s, t);
    }
  }

  // ----- the protocol -----

  /** Who holds the source: nobody, a pull or a lookup by chave; ready once its request is paid for. */
  datatype Phase = Free | Pulling(ready: bool, over: bool) | Fetching(ready: bool, over: bool)

  /** rows is the table; spent and waits remember every request paid for and every wait recorded. */
  datatype Gate = Gate(
    clock: Time,
    rows: seq<Time>,
    block: Option<Block>,
    phase: Phase,
    spent: seq<Time>,
    waits: seq<Block>)

  datatype Event =
    | BeginPull(now: Time)
    | BeginFetch(now: Time)
    | Spend(now: Time)
    | Exhaust(now: Time)
    | Send(now: Time)
    | Wait(now: Time, block: Block)
    | End(now: Time)
    | Reset(now: Time)
    | OtherRecord(now: Time)

  function Recent(g: Gate, now: Time): nat {
    CountSince(g.rows, now - HOUR)
  }

  /** blocked_until when the budget is exhausted. */
  function BudgetUntil(g: Gate, now: Time): Time {
    match OldestSince(g.rows, now - HOUR)
    case None => now + HOUR
    case Some(oldest) => oldest + HOUR
  }

  predicate Allowed(g: Gate, e: Event) {
    && e.now >= g.clock
    && match e {
         case BeginPull(now) => g.phase.Free? && !Blocked(g.block, now, false)
         case BeginFetch(now) => g.phase.Free? && !Blocked(g.block, now, true)
         case Spend(now) => !g.phase.Free? && !g.phase.ready && !g.phase.over && Recent(g, now) < LIMIT
         case Exhaust(now) => !g.phase.Free? && !g.phase.ready && !g.phase.over && Recent(g, now) >= LIMIT
         case Send(_) => !g.phase.Free? && g.phase.ready
         // A wait comes with the answer to a request, lies ahead, and ends the run or the lookup.
         case Wait(now, block) =>
           && !g.phase.Free? && !g.phase.ready && !g.phase.over
           && !block.reason.RateBudget? && block.until == now + HOUR
           && (g.phase.Fetching? ==> block.reason.ConsumoIndevido?)
         case End(_) => true
         case Reset(_) => g.phase.Free?
         case OtherRecord(_) => true
       }
  }

  function Next(g: Gate, e: Event): Gate {
    var g := g.(clock := e.now);
    match e
    case BeginPull(_) => g.(phase := Pulling(false, false))
    case BeginFetch(_) => g.(phase := Fetching(false, false))
    case Spend(now) =>
      g.(rows := Prune(g.rows + [now], now - RETENTION), spent := g.spent + [now],
         phase := if g.phase.Pulling? then Pulling(true, false) else Fetching(true, false))
    case Exhaust(now) =>
      g.(block := Some(Block(BudgetUntil(g, now), RateBudget)),
         phase := if g.phase.Pulling? then Pulling(false, true) else Fetching(false, true))
    case Send(_) => g.(phase := if g.phase.Pulling? then Pulling(false, false) else Fetching(false, false))
    case Wait(_, block) =>
      g.(block := Some(block), waits := g.waits + [block],
         phase := if g.phase.Pulling? then Pulling(false, true) else Fetching(false, true))
    case End(_) => g.(phase := Free)
    case Reset(_) => g
    case OtherRecord(now) => g.(rows := Prune(g.rows, now - RETENTION))
  }

  function Initial(clock: Time): Gate {
    Gate(clock, [], None, Free, [], [])
  }

  /** The gate after a history, or None when some event of it was not allowed. */
  function Replay(start: Time, history: seq<Event>): Option<Gate> {
    if history == [] then Some(Initial(start))
    else
      var before := Replay(start, history[..|history| - 1]);
      var e := history[|history| - 1];
      if before.Some? && Allowed(before.value, e) then Some(Next(before.value, e)) else None
  }

  // ----- the budget -----

  /** Every closed hour holds at most LIMIT requests, and the table still knows the last hour's. */
  ghost predicate BudgetHeld(g: Gate) {
    && (forall i :: 0 <= i < |g.spent| ==> g.spent[i] <= g.clock)
    && (forall w :: CountWindow(g.spent, w) <= LIMIT)
    && (forall since :: since >= g.clock - RETENTION ==> CountSince(g.rows, since) == CountSince(g.spent, since))
  }

  lemma SpendHoldsBudget(g: Gate, now: Time)
    requires BudgetHeld(g) && now >= g.clock && Recent(g, now) < LIMIT
    ensures BudgetHeld(Next(g, Spend(now)))
  {
    hide CountSince, CountWindow, Prune;
    var spent, rows := g.spent + [now], g.rows + [now];
    forall w
      ensures CountWindow(spent, w) <= LIMIT
    {
      CountWindowAppend(g.spent, now, w);
      if w <= now <= w + HOUR {
        WindowWithinSince(g.spent, w, now - HOUR);
      }
    }
    forall since | since >= now - RETENTION
      ensures CountSince(Prune(rows, now - RETENTION), since) == CountSince(spent, since)
    {
      PruneKeepsRecent(rows, now - RETENTION, since);
      CountSinceAppend(g.rows, now, since);
      CountSinceAppend(g.spent, now, since);
    }
  }

  lemma CountWindowAppend(rows: seq<Time>, t: Time, w: Time)
    ensures CountWindow(rows + [t], w) == CountWindow(rows, w) + if w <= t <= w + HOUR then 1 else 0
  {
    assert (rows + [t])[..|rows|] == rows;
  }

  lemma StepHoldsBudget(g: Gate, e: Event)
    requires BudgetHeld(g) && Allowed(g, e)
    ensures BudgetHeld(Next(g, e))
  {
    match e
    case Spend(now) => SpendHoldsBudget(g, now);
    case OtherRecord(now) =>
      forall since | since >= now - RETENTION
        ensures CountSince(Prune(g.rows, now - RETENTION), since) == CountSince(g.spent, since)
      {
        PruneKeepsRecent(g.rows, now - RETENTION, since);
      }
    case _ =>
  }

  /** Over any history, pulls and lookups together never pay for more than 20 requests in an hour. */
  lemma {:induction false} NeverOverBudget(start: Time, history: seq<Event>)
    requires Replay(start, history).Some?
    ensures BudgetHeld(Replay(start, history).value)
  {
    if history != [] {
      var n := |history| - 1;
      NeverOverBudget(start, history[..n]);
      StepHoldsBudget(Replay(start, history[..n]).value, history[n]);
    }
  }

  // ----- when the paid requests are sent -----

  function SentTimes(history: seq<Event>): seq<Time> {
    if history == [] then []
    else
      var e := history[|history| - 1];
      SentTimes(history[..|history| - 1]) + if e.Send? then [e.now] else []
  }

  /** The request that is paid for and not sent yet. */
  predicate Paid(phase: Phase) {
    !phase.Free? && phase.ready
  }

  predicate PaidBefore(g: Gate, w: Time) {
    Paid(g.phase) && g.spent != [] && g.spent[|g.spent| - 1] < w
  }

  /** A request paid for before w and sent inside the hour that starts at w. */
  predicate LateSend(start: Time, history: seq<Event>, w: Time, i: int) {
    && 0 <= i < |history| && history[i].Send? && w <= history[i].now <= w + HOUR
    && Replay(start, history[..i]).Some? && PaidBefore(Replay(start, history[..i]).value, w)
  }

  predicate HasLateSend(start: Time, history: seq<Event>, w: Time) {
    exists i :: 0 <= i < |history| && LateSend(start, history, w, i)
  }

  function One(b: bool): nat {
    if b then 1 else 0
  }

  /** The sends of an hour against its payments; an unsent payment inside the hour is still to come. */
  predicate SendsHeld(g: Gate, sent: seq<Time>, w: Time, late: bool) {
    && (forall i :: 0 <= i < |sent| ==> sent[i] <= g.clock)
    && (forall i :: 0 <= i < |g.spent| ==> g.spent[i] <= g.clock)
    && (Paid(g.phase) ==> g.spent != [])
    && CountWindow(sent, w) + One(Paid(g.phase) && w <= g.spent[|g.spent| - 1] <= w + HOUR)
       <= CountWindow(g.spent, w) + One(late)
    && (PaidBefore(g, w) ==> CountWindow(sent, w) == 0 && !late)
  }

  lemma {:induction false} NoneYet(times: seq<Time>, w: Time)
    requires forall i :: 0 <= i < |times| ==> times[i] < w
    ensures CountWindow(times, w) == 0
  {
    if times != [] {
      NoneYet(times[..|times| - 1], w);
    }
  }

  lemma StepHoldsSends(g: Gate, e: Event, sent: seq<Time>, w: Time, late: bool)
    requires SendsHeld(g, sent, w, late) && Allowed(g, e)
    requires late ==> CountWindow(sent, w) > 0
    ensures var after := if e.Send? then sent + [e.now] else sent;
            var lateNow := late || (e.Send? && w <= e.now <= w + HOUR && PaidBefore(g, w));
            SendsHeld(Next(g, e), after, w, lateNow) && (lateNow ==> CountWindow(after, w) > 0)
  {
    hide CountSince, Prune, OldestSince, CountWindow;
    CountWindowAppend(sent, e.now, w);
    CountWindowAppend(g.spent, e.now, w);
    if e.Spend? && e.now < w {
      NoneYet(sent, w);
    }
  }

  lemma LateSendGrows(start: Time, history: seq<Event>, w: Time)
    requires history != [] && Replay(start, history).Some?
    ensures var n := |history| - 1;
            HasLateSend(start, history, w) <==> HasLateSend(start, history[..n], w) || LateSend(start, history, w, n)
  {
    var n := |history| - 1;
    forall i | 0 <= i < n
      ensures LateSend(start, history, w, i) <==> LateSend(start, history[..n], w, i)
    {
      assert history[..n][..i] == history[..i] && history[..n][i] == history[i];
    }
    if HasLateSend(start, history, w) {
      var i :| 0 <= i < |history| && LateSend(start, history, w, i);
      if i < n {
        assert LateSend(start, history[..n], w, i);
      }
    }
    if HasLateSend(start, history[..n], w) {
      var i :| 0 <= i < n && LateSend(start, history[..n], w, i);
      assert LateSend(start, history, w, i);
    }
  }

  lemma {:induction false} SendsFollowPayments(start: Time, history: seq<Event>, w: Time)
    requires Replay(start, history).Some?
    ensures SendsHeld(Replay(start, history).value, SentTimes(history), w, HasLateSend(start, history, w))
    ensures HasLateSend(start, history, w) ==> CountWindow(SentTimes(history), w) > 0
  {
    if history != [] {
      hide CountWindow, Next, Allowed, SendsHeld, LateSend;
      var n := |history| - 1;
      SendsFollowPayments(start, history[..n], w);
      LateSendGrows(start, history, w);
      LastLate(start, history, w);
      StepHoldsSends(Replay(start, history[..n]).value, history[n], SentTimes(history[..n]), w,
        HasLateSend(start, history[..n], w));
      assert SentTimes(history[..n]) + [] == SentTimes(history[..n]);
    } else {
      assert !HasLateSend(start, history, w);
    }
  }

  lemma LastLate(start: Time, history: seq<Event>, w: Time)
    requires history != [] && Replay(start, history).Some?
    ensures var n := |history| - 1; var e := history[n];
            LateSend(start, history, w, n) <==>
              e.Send? && w <= e.now <= w + HOUR && PaidBefore(Replay(start, history[..n]).value, w)
  {
  }

  /**
   Requests as they are sent: no closed hour holds more than 20 of them, or 21 when one of them was paid
   for before that hour began.
   */
  lemma SentPerHour(start: Time, history: seq<Event>, w: Time)
    requires Replay(start, history).Some?
    ensures CountWindow(SentTimes(history), w) <= LIMIT + One(HasLateSend(start, history, w))
  {
    SendsFollowPayments(start, history, w);
    NeverOverBudget(start, history);
  }

  predicate SentAndPaidIn(start: Time, history: seq<Event>, w: Time, i: nat)
    requires i < |history|
  {
    && history[i].Send? && w <= history[i].now <= w + HOUR
    && Replay(start, history[..i]).Some? && !PaidBefore(Replay(start, history[..i]).value, w)
  }

  /** The requests both paid for and sent in the hour that starts at w. */
  function PaidAndSent(start: Time, history: seq<Event>, w: Time): nat {
    if history == [] then 0
    else
      var n := |history| - 1;
      PaidAndSent(start, history[..n], w) + One(SentAndPaidIn(start, history, w, n))
  }

  /** The sends of an hour are those paid for in it, and one more when one was paid for before. */
  lemma {:induction false} SentExactly(start: Time, history: seq<Event>, w: Time)
    requires Replay(start, history).Some?
    ensures CountWindow(SentTimes(history), w) == PaidAndSent(start, history, w) + One(HasLateSend(start, history, w))
    ensures PaidAndSent(start, history, w) <= CountWindow(Replay(start, history).value.spent, w) <= LIMIT
  {
    SendsFollowPayments(start, history, w);
    NeverOverBudget(start, history);
    if history != [] {
      hide CountWindow, Next, Allowed, LateSend, BudgetHeld;
      var n := |history| - 1;
      var sent := SentTimes(history[..n]);
      SentExactly(start, history[..n], w);
      SendsFollowPayments(start, history[..n], w);
      LateSendGrows(start, history, w);
      LastLate(start, history, w);
      CountWindowAppend(sent, history[n].now, w);
      assert sent + [] == sent;
    } else {
      assert !HasLateSend(start, history, w);
    }
  }

  /** More than 20 are sent exactly when 20 are paid for and sent in the hour and one was paid for before it. */
  lemma OverLimitExactly(start: Time, history: seq<Event>, w: Time)
    requires Replay(start, history).Some?
    ensures CountWindow(SentTimes(history), w) > LIMIT <==>
              PaidAndSent(start, history, w) == LIMIT && HasLateSend(start, history, w)
  {
    SentExactly(start, history, w);
  }

  /** Every request is sent in the second it is paid for. */
  predicate SentWhenPaid(start: Time, history: seq<Event>)
    requires Replay(start, history).Some?
  {
    forall i {:trigger history[i]} :: 0 <= i < |history| && history[i].Send? && Replay(start, history[..i]).Some? ==>
      Replay(start, history[..i]).value.spent != [] && Last(Replay(start, history[..i]).value.spent) == history[i].now
  }

  function Last(times: seq<Time>): Time
    requires times != []
  {
    times[|times| - 1]
  }

  lemma PromptSendsPerHour(start: Time, history: seq<Event>, w: Time)
    requires Replay(start, history).Some? && SentWhenPaid(start, history)
    ensures CountWindow(SentTimes(history), w) <= LIMIT
  {
    SentPerHour(start, history, w);
    if i :| 0 <= i < |history| && LateSend(start, history, w, i) {
      assert false;
    }
  }

  /** At the stored blocked_until the oldest request still counts: the slot is free a second later. */
  lemma SlotFreesOneSecondLater(g: Gate, now: Time)
    requires BudgetHeld(g) && g.clock <= now && Recent(g, now) >= LIMIT
    ensures var until := BudgetUntil(g, now);
            && now <= until
            && Recent(g, until) == Recent(g, now)
            && Recent(g, until + 1) < LIMIT
  {
    var oldest := OldestSince(g.rows, now - HOUR).value;
    SameCount(g.rows, now - HOUR, oldest);
    OldestDrops(g.rows, oldest);
    assert CountSince(g.rows, oldest) == CountSince(g.spent, oldest);
    CountWithin(g.spent, oldest);
  }

  /** When nothing is later than the window, counting since its start is counting inside it. */
  lemma {:induction false} CountWithin(rows: seq<Time>, w: Time)
    requires forall i :: 0 <= i < |rows| ==> rows[i] <= w + HOUR
    ensures CountWindow(rows, w) == CountSince(rows, w)
  {
    if rows != [] {
      CountWithin(rows[..|rows| - 1], w);
    }
  }

  lemma {:induction false} SameCount(rows: seq<Time>, s: Time, t: Time)
    requires s <= t && forall i :: 0 <= i < |rows| && rows[i] >= s ==> rows[i] >= t
    ensures CountSince(rows, s) == CountSince(rows, t)
  {
    if rows != [] {
      SameCount(rows[..|rows| - 1], s, t);
    }
  }

  lemma {:induction false} OldestDrops(rows: seq<Time>, t: Time)
    requires t in rows
    ensures CountSince(rows, t + 1) < CountSince(rows, t)
  {
    var n := |rows| - 1;
    assert rows == rows[..n] + [rows[n]];
    if t in rows[..n] {
      OldestDrops(rows[..n], t);
    } else {
      SinceMonotone(rows[..n], t, t + 1);
    }
  }

  // ----- the waits -----

  predicate Active(phase: Phase) {
    !phase.Free? && !phase.over
  }

  predicate Hard(wait: Block) {
    wait.reason.ConsumoIndevido?
  }

  /** The wait is over, or the stored block lasts at least as long. */
  predicate Covered(g: Gate, wait: Block) {
    wait.until <= g.clock || (g.block.Some? && g.block.value.until >= wait.until)
  }

  /** The wait is over, or a block that lookups respect too lasts at least as long. */
  predicate HardCovered(g: Gate, wait: Block) {
    wait.until <= g.clock || (g.block.Some? && !g.block.value.reason.CaughtUp? && g.block.value.until >= wait.until)
  }

  predicate WaitsAhead(g: Gate) {
    && (forall w :: w in g.waits ==> w.until <= g.clock + HOUR)
    && (!g.phase.Free? ==> !(g.phase.ready && g.phase.over))
  }

  /** consumo_indevido waits: covered, and over while anyone may still send. */
  predicate HardHeld(g: Gate) {
    && WaitsAhead(g)
    && (forall w :: w in g.waits && Hard(w) ==> HardCovered(g, w))
    && (Active(g.phase) ==> forall w :: w in g.waits && Hard(w) ==> w.until <= g.clock)
  }

  lemma StepHoldsHard(g: Gate, e: Event)
    requires HardHeld(g) && Allowed(g, e)
    ensures HardHeld(Next(g, e))
  {
  }

  /** Every wait: covered, and over while a pull may still send. */
  predicate AllHeld(g: Gate) {
    && WaitsAhead(g)
    && (forall w :: w in g.waits ==> Covered(g, w))
    && (Active(g.phase) && g.phase.Pulling? ==> forall w :: w in g.waits ==> w.until <= g.clock)
  }

  /** An exhausted budget in a lookup by chave replaces a longer wait after catching up. */
  predicate Shortens(g: Gate, e: Event) {
    e.Exhaust? && g.phase.Fetching? && InForce(g.block, e.now) && BudgetUntil(g, e.now) < g.block.value.until
  }

  lemma StepHoldsAll(g: Gate, e: Event)
    requires AllHeld(g) && Allowed(g, e) && !Shortens(g, e)
    ensures AllHeld(Next(g, e))
  {
  }

  predicate NeverShortens(start: Time, history: seq<Event>)
    requires Replay(start, history).Some?
  {
    forall i {:trigger history[i]} :: 0 <= i < |history| ==>
      Replay(start, history[..i]).Some? && !Shortens(Replay(start, history[..i]).value, history[i])
  }

  lemma {:induction false} PrefixReplays(start: Time, history: seq<Event>, i: nat)
    requires Replay(start, history).Some? && i <= |history|
    ensures Replay(start, history[..i]).Some?
  {
    if i < |history| {
      assert history[..|history| - 1][..i] == history[..i];
      PrefixReplays(start, history[..|history| - 1], i);
    } else {
      assert history[..i] == history;
    }
  }

  /** A wait once recorded is remembered. */
  lemma {:induction false} WaitRemembered(start: Time, history: seq<Event>, i: nat)
    requires Replay(start, history).Some? && i < |history| && history[i].Wait?
    ensures history[i].block in Replay(start, history).value.waits
  {
    var n := |history| - 1;
    if i < n {
      assert history[..n][i] == history[i];
      WaitRemembered(start, history[..n], i);
    }
  }

  lemma {:induction false} HardWaitsHold(start: Time, history: seq<Event>)
    requires Replay(start, history).Some?
    ensures HardHeld(Replay(start, history).value)
  {
    if history != [] {
      var n := |history| - 1;
      HardWaitsHold(start, history[..n]);
      StepHoldsHard(Replay(start, history[..n]).value, history[n]);
    }
  }

  lemma {:induction false} AllWaitsHold(start: Time, history: seq<Event>)
    requires Replay(start, history).Some? && NeverShortens(start, history)
    ensures AllHeld(Replay(start, history).value)
  {
    if history != [] {
      var n := |history| - 1;
      var front := history[..n];
      forall i | 0 <= i < |front|
        ensures Replay(start, front[..i]).Some? && !Shortens(Replay(start, front[..i]).value, front[i])
      {
        assert front[..i] == history[..i] && front[i] == history[i];
      }
      AllWaitsHold(start, front);
      assert history[n].now == history[n].now;
      StepHoldsAll(Replay(start, front).value, history[n]);
    }
  }

  /** After a consumo_indevido answer nobody, pull or lookup, sends a request before the hour is over. */
  lemma ConsumoIndevidoIsRespected(start: Time, history: seq<Event>, i: nat, j: nat)
    requires Replay(start, history).Some? && i < j < |history|
    requires history[i].Wait? && history[i].block.reason.ConsumoIndevido? && history[j].Send?
    ensures history[j].now >= history[i].block.until
  {
    PrefixReplays(start, history, j);
    PrefixReplays(start, history, j + 1);
    assert history[..j + 1][..j] == history[..j];
    WaitRemembered(start, history[..j], i);
    HardWaitsHold(start, history[..j]);
  }

  /** After any wait no pull sends a request before it expires, when no lookup shortened it. */
  lemma WaitsAreRespected(start: Time, history: seq<Event>, i: nat, j: nat)
    requires Replay(start, history).Some? && i < j < |history|
    requires history[i].Wait? && history[j].Send? && Replay(start, history[..j]).Some?
    requires Replay(start, history[..j]).value.phase.Pulling? && NeverShortens(start, history[..j])
    ensures history[j].now >= history[i].block.until
  {
    PrefixReplays(start, history, j + 1);
    assert history[..j + 1][..j] == history[..j];
    WaitRemembered(start, history[..j], i);
    AllWaitsHold(start, history[..j]);
  }

  predicate NoLookups(history: seq<Event>) {
    forall i :: 0 <= i < |history| ==> !history[i].BeginFetch?
  }

  lemma {:induction false} WithoutLookupsNobodyFetches(start: Time, history: seq<Event>)
    requires Replay(start, history).Some? && NoLookups(history)
    ensures !Replay(start, history).value.phase.Fetching?
  {
    if history != [] {
      WithoutLookupsNobodyFetches(start, history[..|history| - 1]);
    }
  }

  /** Over pulls and resets alone, no request is sent before any recorded wait expires. */
  lemma PullsAndResetsRespectWaits(start: Time, history: seq<Event>, i: nat, j: nat)
    requires Replay(start, history).Some? && i < j < |history| && NoLookups(history)
    requires history[i].Wait? && history[j].Send?
    ensures history[j].now >= history[i].block.until
  {
    hide Next, BudgetUntil, CountSince;
    PrefixReplays(start, history, j);
    PrefixReplays(start, history, j + 1);
    assert history[..j + 1][..j] == history[..j];
    WithoutLookupsNobodyFetches(start, history[..j]);
    forall k | 0 <= k < j
      ensures Replay(start, history[..j][..k]).Some?
      ensures !Shortens(Replay(start, history[..j][..k]).value, history[..j][k])
    {
      assert history[..j][..k] == history[..k];
      PrefixReplays(start, history, k);
      WithoutLookupsNobodyFetches(start, history[..k]);
    }
    WaitsAreRespected(start, history, i, j);
  }

  // ----- after an exhausted budget -----

  /** The hour from oldest on is full, and nobody may send inside it. */
  predicate Drained(g: Gate, oldest: Time) {
    CountSince(g.spent, oldest) >= LIMIT && (Paid(g.phase) ==> g.clock > oldest + HOUR)
  }

  lemma StepKeepsDrained(g: Gate, e: Event, oldest: Time)
    requires BudgetHeld(g) && Allowed(g, e) && Drained(g, oldest)
    ensures Drained(Next(g, e), oldest)
  {
    if e.Spend? {
      assert (g.spent + [e.now])[..|g.spent|] == g.spent;
      if e.now <= oldest + HOUR {
        SinceMonotone(g.rows, e.now - HOUR, oldest);
        SinceMonotone(g.spent, e.now - HOUR, oldest);
      }
    }
  }

  /** An exhausted budget drains the hour that starts at its oldest request. */
  lemma ExhaustDrains(g: Gate, e: Event)
    requires BudgetHeld(g) && Allowed(g, e) && e.Exhaust?
    ensures Drained(Next(g, e), BudgetUntil(g, e.now) - HOUR)
  {
    var oldest := OldestSince(g.rows, e.now - HOUR).value;
    SameCount(g.rows, e.now - HOUR, oldest);
  }

  lemma {:induction false} DrainedFrom(start: Time, history: seq<Event>, i: nat)
    requires Replay(start, history).Some? && i < |history| && history[i].Exhaust?
    requires Replay(start, history[..i]).Some?
    ensures Drained(Replay(start, history).value, BudgetUntil(Replay(start, history[..i]).value, history[i].now) - HOUR)
  {
    hide Allowed, Next, BudgetHeld, Drained, BudgetUntil;
    var n := |history| - 1;
    NeverOverBudget(start, history[..n]);
    if i < n {
      assert history[..n][..i] == history[..i] && history[..n][i] == history[i];
      DrainedFrom(start, history[..n], i);
      StepKeepsDrained(Replay(start, history[..n]).value, history[n],
                       BudgetUntil(Replay(start, history[..i]).value, history[i].now) - HOUR);
    } else {
      ExhaustDrains(Replay(start, history[..i]).value, history[i]);
    }
  }

  /** An exhausted budget keeps pulls and lookups from sending up to and including blocked_until. */
  lemma ExhaustedBudgetIsRespected(start: Time, history: seq<Event>, i: nat, j: nat)
    requires Replay(start, history).Some? && i < j < |history|
    requires history[i].Exhaust? && history[j].Send? && Replay(start, history[..i]).Some?
    ensures history[j].now > BudgetUntil(Replay(start, history[..i]).value, history[i].now)
  {
    hide Next, BudgetHeld, BudgetUntil, CountSince;
    PrefixReplays(start, history, j + 1);
    PrefixReplays(start, history, j);
    assert history[..j + 1][..j] == history[..j] && history[..j][..i] == history[..i];
    DrainedFrom(start, history[..j], i);
  }

  /** The history ends with a request that a pull sends before t. */
  predicate PullSendsBefore(start: Time, history: seq<Event>, t: Time) {
    && history != []
    && history[|history| - 1].Send? && history[|history| - 1].now < t
    && Replay(start, history).Some?
    && Replay(start, history[..|history| - 1]).Some?
    && Replay(start, history[..|history| - 1]).value.phase.Pulling?
  }

  /** Some continuation lets a pull send before t. */
  ghost predicate PullCanSendBefore(start: Time, history: seq<Event>, t: Time) {
    exists rest: seq<Event> :: rest != [] && PullSendsBefore(start, history + rest, t)
  }

  lemma ReplayAppend(start: Time, history: seq<Event>, e: Event)
    requires Replay(start, history).Some? && Allowed(Replay(start, history).value, e)
    ensures Replay(start, history + [e]) == Some(Next(Replay(start, history).value, e))
  {
    assert (history + [e])[..|history|] == history;
  }

  lemma EarlyPull(start: Time, history: seq<Event>, e: Event, t: Time)
    requires Replay(start, history).Some?
    requires var g := Replay(start, history).value; Allowed(g, e) && e.Exhaust? && BudgetUntil(g, e.now) + 1 < t
    ensures PullCanSendBefore(start, history + [e], t)
  {
    hide CountSince, OldestSince, Prune, Replay, BudgetHeld;
    var g := Replay(start, history).value;
    var h := history + [e];
    var begin := BudgetUntil(g, e.now) + 1;
    NeverOverBudget(start, history);
    SlotFreesOneSecondLater(g, e.now);
    ReplayAppend(start, history, e);
    ReplayAppend(start, h, End(e.now));
    var h1 := h + [End(e.now)];
    ReplayAppend(start, h1, BeginPull(begin));
    var h2 := h1 + [BeginPull(begin)];
    ReplayAppend(start, h2, Spend(begin));
    var h3 := h2 + [Spend(begin)];
    ReplayAppend(start, h3, Send(begin));
    var rest := [End(e.now), BeginPull(begin), Spend(begin), Send(begin)];
    assert h + rest == h3 + [Send(begin)];
    assert (h + rest)[..|h + rest| - 1] == h3;
  }

  /**
   A lookup whose exhausted budget replaces a longer wait lets a pull in before that wait ends exactly
   when the wait outlasts the budget block by more than a second.
   */
  lemma ShortenedWaitExactly(start: Time, history: seq<Event>, e: Event)
    requires Replay(start, history).Some?
    requires Allowed(Replay(start, history).value, e) && Shortens(Replay(start, history).value, e)
    ensures var g := Replay(start, history).value;
            PullCanSendBefore(start, history + [e], g.block.value.until) <==>
              g.block.value.until > BudgetUntil(g, e.now) + 1
  {
    var g := Replay(start, history).value;
    var t := g.block.value.until;
    var h := history + [e];
    if t > BudgetUntil(g, e.now) + 1 {
      EarlyPull(start, history, e, t);
    }
    forall rest: seq<Event> | rest != [] && PullSendsBefore(start, h + rest, t)
      ensures t > BudgetUntil(g, e.now) + 1
    {
      assert (h + rest)[..|history|] == history;
      ExhaustedBudgetIsRespected(start, h + rest, |history|, |h + rest| - 1);
    }
  }

  function Zeros(n: nat): seq<Time> {
    if n == 0 then [] else Zeros(n - 1) + [0]
  }

  /** n lookups by chave in the first second. */
  function Lookups(n: nat): seq<Event> {
    if n == 0 then [] else Lookups(n - 1) + [BeginFetch(0)] + [Spend(0)] + [Send(0)] + [End(0)]
  }

  lemma {:induction false} ZerosCount(n: nat, since: Time)
    ensures |Zeros(n)| == n
    ensures CountSince(Zeros(n), since) == if since <= 0 then n else 0
    ensures since <= 0 ==> Prune(Zeros(n), since) == Zeros(n)
    ensures n > 0 && since <= 0 ==> OldestSince(Zeros(n), since) == Some(0)
  {
    if n > 0 {
      ZerosCount(n - 1, since);
      assert Zeros(n)[..n - 1] == Zeros(n - 1);
    }
  }

  lemma OneLookup(history: seq<Event>, rows: seq<Time>, after: seq<Time>)
    requires Replay(0, history) == Some(Gate(0, rows, None, Free, rows, []))
    requires CountSince(rows, -HOUR) < LIMIT && after == rows + [0] && Prune(after, -RETENTION) == after
    ensures Replay(0, history + [BeginFetch(0)] + [Spend(0)] + [Send(0)] + [End(0)])
              == Some(Gate(0, after, None, Free, after, []))
  {
    hide CountSince, Prune, Replay;
    ReplayAppend(0, history, BeginFetch(0));
    ReplayAppend(0, history + [BeginFetch(0)], Spend(0));
    ReplayAppend(0, history + [BeginFetch(0)] + [Spend(0)], Send(0));
    ReplayAppend(0, history + [BeginFetch(0)] + [Spend(0)] + [Send(0)], End(0));
  }

  lemma {:induction false} LookupsReplay(n: nat)
    requires n < LIMIT
    ensures Replay(0, Lookups(n)) == Some(Gate(0, Zeros(n), None, Free, Zeros(n), []))
  {
    if n > 0 {
      LookupsReplay(n - 1);
      ZerosCount(n - 1, -HOUR);
      ZerosCount(n, -RETENTION);
      OneLookup(Lookups(n - 1), Zeros(n - 1), Zeros(n));
    }
  }

  /** 19 lookups, a pull told to wait from 1800 to 5400, and a lookup that finds the budget spent. */
  function Shortening(): seq<Event> {
    Lookups(19) + [BeginPull(1800)] + [Spend(1800)] + [Send(1800)] + [Wait(1800, Block(5400, CaughtUp))] + [End(1800)]
    + [BeginFetch(1801)] + [Exhaust(1801)]
  }

  lemma OnePull(history: seq<Event>, rows: seq<Time>, after: seq<Time>, now: Time, wait: Block)
    requires Replay(0, history) == Some(Gate(0, rows, None, Free, rows, []))
    requires now >= 0 && CountSince(rows, now - HOUR) < LIMIT && wait == Block(now + HOUR, CaughtUp)
    requires after == rows + [now] && Prune(after, now - RETENTION) == after
    ensures Replay(0, history + [BeginPull(now)] + [Spend(now)] + [Send(now)] + [Wait(now, wait)] + [End(now)])
         == Some(Gate(now, after, Some(wait), Free, after, [wait]))
  {
    hide CountSince, Prune, Replay;
    ReplayAppend(0, history, BeginPull(now));
    var h := history + [BeginPull(now)];
    ReplayAppend(0, h, Spend(now));
    h := h + [Spend(now)];
    ReplayAppend(0, h, Send(now));
    h := h + [Send(now)];
    ReplayAppend(0, h, Wait(now, wait));
    h := h + [Wait(now, wait)];
    ReplayAppend(0, h, End(now));
    assert [] + [wait] == [wait];
  }

  lemma OnceMorePaid(paid: seq<Time>)
    requires paid == Zeros(19) + [1800]
    ensures CountSince(paid, 1801 - HOUR) == 20 && OldestSince(paid, 1801 - HOUR) == Some(0)
    ensures CountSince(Zeros(19), 1800 - HOUR) < LIMIT && Prune(paid, 1800 - RETENTION) == paid
  {
    ZerosCount(19, 1800 - HOUR);
    ZerosCount(19, 1801 - HOUR);
    ZerosCount(19, 1800 - RETENTION);
    assert paid[..19] == Zeros(19);
  }

  /** After it a pull may send before the wait it was told to keep: waits are not kept in general. */
  lemma AWaitCanBeShortened()
    ensures Wait(1800, Block(5400, CaughtUp)) in Shortening()
    ensures PullCanSendBefore(0, Shortening(), 5400)
  {
    hide CountSince, OldestSince, Prune, Zeros, Lookups, Replay, PullCanSendBefore;
    var h, paid := Lookups(19), Zeros(19) + [1800];
    LookupsReplay(19);
    OnceMorePaid(paid);
    OnePull(h, Zeros(19), paid, 1800, Block(5400, CaughtUp));
    h := h + [BeginPull(1800)] + [Spend(1800)] + [Send(1800)] + [Wait(1800, Block(5400, CaughtUp))] + [End(1800)];
    ReplayAppend(0, h, BeginFetch(1801));
    ShortenedWaitExactly(0, h + [BeginFetch(1801)], Exhaust(1801));
  }

  /** One request paid for at 0 and sent at 100, then 19 at 100. */
  function Crowd(n: nat): seq<Event> {
    if n == 0 then [BeginFetch(0)] + [Spend(0)] + [Send(100)] + [End(100)]
    else Crowd(n - 1) + [BeginFetch(100)] + [Spend(100)] + [Send(100)] + [End(100)]
  }

  function Hundreds(n: nat): seq<Time> {
    if n == 0 then [0] else Hundreds(n - 1) + [100]
  }

  function HundredsSent(n: nat): seq<Time> {
    if n == 0 then [100] else HundredsSent(n - 1) + [100]
  }

  lemma {:induction false} HundredsCount(n: nat)
    ensures forall since :: since <= 0 ==> CountSince(Hundreds(n), since) == n + 1
    ensures forall since :: 0 < since <= 100 ==> CountSince(Hundreds(n), since) == n
    ensures forall cutoff :: cutoff <= 0 ==> Prune(Hundreds(n), cutoff) == Hundreds(n)
    ensures CountWindow(HundredsSent(n), 100) == n + 1
  {
    if n > 0 {
      HundredsCount(n - 1);
      assert Hundreds(n)[..|Hundreds(n)| - 1] == Hundreds(n - 1);
      assert HundredsSent(n)[..|HundredsSent(n)| - 1] == HundredsSent(n - 1);
    } else {
      assert Hundreds(0)[..0] == [] && HundredsSent(0)[..0] == [];
    }
  }

  lemma OneRequest(history: seq<Event>, clock: Time, rows: seq<Time>, after: seq<Time>, paid: Time, sent: Time)
    requires Replay(0, history) == Some(Gate(clock, rows, None, Free, rows, []))
    requires clock <= paid <= sent && CountSince(rows, paid - HOUR) < LIMIT
    requires after == rows + [paid] && Prune(after, paid - RETENTION) == after
    ensures Replay(0, history + [BeginFetch(paid)] + [Spend(paid)] + [Send(sent)] + [End(sent)])
         == Some(Gate(sent, after, None, Free, after, []))
    ensures SentTimes(history + [BeginFetch(paid)] + [Spend(paid)] + [Send(sent)] + [End(sent)])
              == SentTimes(history) + [sent]
  {
    hide CountSince, Prune, Replay;
    ReplayAppend(0, history, BeginFetch(paid));
    var h := history + [BeginFetch(paid)];
    ReplayAppend(0, h, Spend(paid));
    ReplayAppend(0, h + [Spend(paid)], Send(sent));
    ReplayAppend(0, h + [Spend(paid)] + [Send(sent)], End(sent));
    SentAppend(history, BeginFetch(paid));
    SentAppend(h, Spend(paid));
    SentAppend(h + [Spend(paid)], Send(sent));
    SentAppend(h + [Spend(paid)] + [Send(sent)], End(sent));
  }

  lemma SentAppend(history: seq<Event>, e: Event)
    ensures SentTimes(history + [e]) == if e.Send? then SentTimes(history) + [e.now] else SentTimes(history)
  {
    assert (history + [e])[..|history|] == history;
    assert SentTimes(history) + [] == SentTimes(history);
  }

  /** Up to 3600 all of them count, and up to a day none is pruned. */
  lemma HundredsFit(n: nat)
    ensures CountSince(Hundreds(n), 100 - HOUR) == n + 1
    ensures Prune(Hundreds(n), 100 - RETENTION) == Hundreds(n)
  {
    HundredsCount(n);
  }

  lemma CrowdBegins()
    ensures Replay(0, Crowd(0)) == Some(Gate(100, Hundreds(0), None, Free, Hundreds(0), []))
    ensures SentTimes(Crowd(0)) == HundredsSent(0)
  {
    hide SentTimes;
    NothingSent();
    assert [] + [0] == [0];
    OneRequest([], 0, [], [0], 0, 100);
    assert [] + [BeginFetch(0)] == [BeginFetch(0)];
  }

  lemma NothingSent()
    ensures SentTimes([]) + [100] == [100]
  {
  }

  lemma CrowdGrows(before: seq<Event>, n: nat)
    requires 0 < n < LIMIT
    requires Replay(0, before) == Some(Gate(100, Hundreds(n - 1), None, Free, Hundreds(n - 1), []))
    requires SentTimes(before) == HundredsSent(n - 1)
    ensures var after := before + [BeginFetch(100)] + [Spend(100)] + [Send(100)] + [End(100)];
            && Replay(0, after) == Some(Gate(100, Hundreds(n), None, Free, Hundreds(n), []))
            && SentTimes(after) == HundredsSent(n)
  {
    hide Replay, CountSince, Prune, SentTimes;
    HundredsFit(n);
    HundredsFit(n - 1);
    OneRequest(before, 100, Hundreds(n - 1), Hundreds(n), 100, 100);
  }

  lemma {:induction false} CrowdReplays(n: nat)
    requires n < LIMIT
    ensures Replay(0, Crowd(n)) == Some(Gate(100, Hundreds(n), None, Free, Hundreds(n), []))
    ensures SentTimes(Crowd(n)) == HundredsSent(n)
  {
    hide Replay, SentTimes, Hundreds, HundredsSent;
    if n == 0 {
      CrowdBegins();
    } else {
      CrowdReplays(n - 1);
      CrowdGrows(Crowd(n - 1), n);
    }
  }

  /** The 21 are reached: the closed hour from 100 to 3700 holds them. */
  lemma TwentyOneInAnHour()
    ensures var history := Crowd(19) + [BeginFetch(3601)] + [Spend(3601)] + [Send(3601)] + [End(3601)];
            Replay(0, history).Some? && CountWindow(SentTimes(history), 100) == LIMIT + 1
  {
    hide CountSince, Prune, Replay, Crowd, Hundreds, HundredsSent, CountWindow;
    CrowdReplays(19);
    HundredsCount(19);
    var after := Hundreds(19) + [3601];
    PruneNothing(Hundreds(19), 3601, 3601 - RETENTION);
    OneRequest(Crowd(19), 100, Hundreds(19), after, 3601, 3601);
    CountWindowAppend(HundredsSent(19), 3601, 100);
  }

  lemma PruneNothing(rows: seq<Time>, t: Time, cutoff: Time)
    requires Prune(rows, cutoff) == rows && t >= cutoff
    ensures Prune(rows + [t], cutoff) == rows + [t]
  {
    assert (rows + [t])[..|rows|] == rows;
  }
}
