/**
 When the order of arrival matters to what a company sees of an NF-e, and when it cannot: the listing
 of the event table settles ties by the stored text of the time, the type and the sequence number, and
 only an event without any time takes its place in the listing from the moment it was stored.
 */
module NfeOrder {
  import opened NfeTypes
  import opened NfeManifestacao
  import opened NfeMerge
  import opened NfeStore
  import opened NfeStoreProofs
  import opened NfeHistory

  // ----- what arrived, whatever the order and the moment -----

  datatype Copy = Copy(company: CompanyId, chave: Chave, document: Document)

  function CopyOf(a: Arrival): Copy {
    Copy(a.company, a.chave, a.document)
  }

  function CopiesIn(ops: seq<Op>): set<Copy> {
    set o | o in ops && o.Arrive? :: CopyOf(o.a)
  }

  function EventsIn(ops: seq<Op>): set<Event> {
    set o | o in ops && o.Happen? :: o.e
  }

  /** The same copies and the same events: order, repetition, identifiers and storing times may differ. */
  predicate SameArrivals(a: seq<Op>, b: seq<Op>) {
    CopiesIn(a) == CopiesIn(b) && EventsIn(a) == EventsIn(b)
  }

  /** Some conclusive event of the company has a known time, or all are of one kind. */
  predicate TieResolved(facts: set<Fact>, company: Cnpj) {
    || (exists f :: f in facts && ConclusiveFact(f, company) && TimeOf(f.stamp) != 0)
    || (forall f, g :: f in facts && g in facts && ConclusiveFact(f, company) && ConclusiveFact(g, company) ==>
         f.kind == g.kind)
  }

  lemma {:induction false} CopiesAre(ops: seq<Op>, chave: Chave)
    ensures forall d :: d in Copies(ops, chave) <==>
              exists o :: o in ops && o.Arrive? && o.a.chave == chave && o.a.document == d
  {
    if ops != [] {
      var front, last := Split(ops);
      CopiesAre(front, chave);
      assert last in ops;
    }
  }

  lemma WorstBySet(a: seq<Document>, b: seq<Document>)
    requires a != [] && b != [] && forall d :: d in a <==> d in b
    ensures WorstSituacao(a) == WorstSituacao(b)
  {
    WorstIsWorst(a);
    WorstIsWorst(b);
    var i :| 0 <= i < |a| && a[i].situacao == WorstSituacao(a);
    var j :| 0 <= j < |b| && b[j].situacao == WorstSituacao(b);
    assert a[i] in b && b[j] in a;
    var i' :| 0 <= i' < |b| && b[i'] == a[i];
    var j' :| 0 <= j' < |a| && a[j'] == b[j];
  }

  lemma SameCopies(a: seq<Op>, b: seq<Op>, chave: Chave)
    requires CopiesIn(a) <= CopiesIn(b)
    ensures forall d :: d in Copies(a, chave) ==> d in Copies(b, chave)
  {
    CopiesAre(a, chave);
    CopiesAre(b, chave);
    forall d | d in Copies(a, chave)
      ensures d in Copies(b, chave)
    {
      var o :| o in a && o.Arrive? && o.a.chave == chave && o.a.document == d;
      assert CopyOf(o.a) in CopiesIn(b);
    }
  }

  lemma SaidByEvents(ops: seq<Op>)
    ensures AllSaid(ops) == set e | e in EventsIn(ops) :: Said(e)
  {
    forall s
      ensures s in AllSaid(ops) <==> exists e :: e in EventsIn(ops) && Said(e) == s
    {
      if s in AllSaid(ops) {
        var o :| o in ops && o.Happen? && Said(o.e) == s;
        assert o.e in EventsIn(ops);
      }
      if e :| e in EventsIn(ops) && Said(e) == s {
        var o :| o in ops && o.Happen? && o.e == e;
      }
    }
  }

  lemma SameSeen(a: seq<Op>, b: seq<Op>, company: CompanyId, chave: Chave)
    requires CopiesIn(a) <= CopiesIn(b) && Arrived(a, company, chave)
    ensures Arrived(b, company, chave)
  {
    var o :| o in a && o.Arrive? && o.a.company == company && o.a.chave == chave;
    assert CopyOf(o.a) in CopiesIn(b);
  }

  lemma SameArrivalsSameSituacao(a: seq<Op>, b: seq<Op>, chave: Chave)
    requires SameArrivals(a, b)
    ensures AllSaid(a) == AllSaid(b) && HappenedFacts(a, chave) == HappenedFacts(b, chave)
    ensures Copies(a, chave) != [] <==> Copies(b, chave) != []
    ensures Copies(a, chave) != [] ==> SituacaoAfter(a, chave) == SituacaoAfter(b, chave)
  {
    SaidByEvents(a);
    SaidByEvents(b);
    SameCopies(a, b, chave);
    SameCopies(b, a, chave);
    if Copies(a, chave) != [] {
      assert Copies(a, chave)[0] in Copies(a, chave);
      WorstBySet(Copies(a, chave), Copies(b, chave));
    } else if Copies(b, chave) != [] {
      assert Copies(b, chave)[0] in Copies(b, chave);
    }
  }

  // ----- the listing settles ties between events that carry a time -----

  predicate EventBefore(a: Event, b: Event)
    requires StampOf(a).Some? && StampOf(b).Some?
  {
    || TextBefore(StampOf(a).value, StampOf(b).value)
    || (SameText(StampOf(a).value, StampOf(b).value) && KeyUpTo(a, b))
  }

  lemma ListedInOrder(rows: seq<EventRow>, chave: Chave, i: nat, j: nat)
    requires i < j < |EventsOf(rows, chave)|
    requires StampOf(EventsOf(rows, chave)[i]).Some? && StampOf(EventsOf(rows, chave)[j]).Some?
    ensures EventBefore(EventsOf(rows, chave)[i], EventsOf(rows, chave)[j])
  {
    ListingIsSortedSelection(rows, chave);
    assert ListedBefore(ListRows(rows, chave)[i], ListRows(rows, chave)[j]);
  }

  lemma OneRowPerKey(rows: seq<EventRow>, chave: Chave, a: Event, b: Event)
    requires KeysUnique(rows) && a in EventsOf(rows, chave) && b in EventsOf(rows, chave) && SameKey(a, b)
    ensures a == b
  {
    EventMembers(rows, chave);
    var i :| 0 <= i < |rows| && rows[i].event == a;
    var j :| 0 <= j < |rows| && rows[j].event == b;
  }

  /** What the rows of one chave say. */
  function ToldOf(rows: seq<EventRow>, chave: Chave): set<Saying> {
    set s | s in Told(rows) && s.chave == chave
  }

  lemma WithSaying(rows: seq<EventRow>, chave: Chave, s: Saying) returns (e: Event)
    requires s in ToldOf(rows, chave)
    ensures e in EventsOf(rows, chave) && Said(e) == s
  {
    EventMembers(rows, chave);
    var row :| row in rows && Said(row.event) == s;
    var i :| 0 <= i < |rows| && rows[i] == row;
    e := row.event;
  }

  lemma SayingOf(rows: seq<EventRow>, chave: Chave, e: Event)
    requires e in EventsOf(rows, chave)
    ensures Said(e) in ToldOf(rows, chave)
  {
    EventMembers(rows, chave);
    var i :| 0 <= i < |rows| && rows[i].event == e && e.chave == chave;
    assert rows[i] in rows;
  }

  /** The event that decides over rows comes after every other latest event that carries a time. */
  lemma DecidingIsListedLast(rows: seq<EventRow>, chave: Chave, company: Cnpj, e: Event)
    requires Deciding(EventsOf(rows, chave), company).Some? && IsLatest(EventsOf(rows, chave), company, e)
    requires StampOf(e).Some?
    ensures var d := Deciding(EventsOf(rows, chave), company).value;
            StampOf(d).Some? ==> d == e || EventBefore(e, d)
  {
    var events := EventsOf(rows, chave);
    var i := DecidingDecides(events, company);
    var j :| 0 <= j < |events| && events[j] == e;
    DecidingIsLatest(events, company);
    if j < i && StampOf(events[i]).Some? {
      ListedInOrder(rows, chave, j, i);
    }
  }

  /** Two tables that say the same of a chave decide for the same event, when it carries a time. */
  lemma SameWinner(x: seq<EventRow>, y: seq<EventRow>, chave: Chave, company: Cnpj)
    requires KeysUnique(x) && KeysUnique(y) && ToldOf(x, chave) == ToldOf(y, chave)
    requires var d, f := Deciding(EventsOf(x, chave), company), Deciding(EventsOf(y, chave), company);
             d.Some? && f.Some? && EventTime(d.value) != 0 && EventTime(f.value) == EventTime(d.value)
    ensures Deciding(EventsOf(x, chave), company).value.kind == Deciding(EventsOf(y, chave), company).value.kind
  {
    hide EventsOf, Deciding, Told;
    var a, b := EventsOf(x, chave), EventsOf(y, chave);
    DecidingIsLatest(a, company);
    DecidingIsLatest(b, company);
    var d, f := Deciding(a, company).value, Deciding(b, company).value;
    SayingOf(x, chave, d);
    SayingOf(y, chave, f);
    var d' := WithSaying(y, chave, Said(d));
    var f' := WithSaying(x, chave, Said(f));
    DecidingIsListedLast(x, chave, company, f');
    DecidingIsListedLast(y, chave, company, d');
    if d != f' && f != d' {
      OneRowPerKey(x, chave, d, f');
    }
  }

  lemma SameTablesSameManifestacao(x: seq<EventRow>, y: seq<EventRow>, chave: Chave, company: Cnpj)
    requires KeysUnique(x) && KeysUnique(y) && ToldOf(x, chave) == ToldOf(y, chave)
    requires Facts(EventsOf(x, chave)) == Facts(EventsOf(y, chave)) && TieResolved(Facts(EventsOf(x, chave)), company)
    ensures ManifestacaoOf(EventsOf(x, chave), company) == ManifestacaoOf(EventsOf(y, chave), company)
  {
    hide EventsOf, Told, EarliestCiencia;
    var a, b := EventsOf(x, chave), EventsOf(y, chave);
    if Deciding(a, company).Some? {
      ConclusiveIsNeverUndone(a, b, company);
      ConclusiveIsNeverUndone(b, a, company);
      SameKindDecides(x, y, chave, company);
    } else {
      if Deciding(b, company).Some? { ConclusiveIsNeverUndone(b, a, company); }
      NoConclusive(a, b, company);
    }
  }

  lemma NoConclusive(a: seq<Event>, b: seq<Event>, company: Cnpj)
    requires Facts(a) == Facts(b) && Deciding(a, company).None? && Deciding(b, company).None?
    ensures ManifestacaoOf(a, company) == ManifestacaoOf(b, company)
  {
    if EarliestCiencia(a, company).Some? { EarliestMovesBack(a, b, company); }
    if EarliestCiencia(b, company).Some? { EarliestMovesBack(b, a, company); }
  }

  lemma SameKindDecides(x: seq<EventRow>, y: seq<EventRow>, chave: Chave, company: Cnpj)
    requires KeysUnique(x) && KeysUnique(y) && ToldOf(x, chave) == ToldOf(y, chave)
    requires Facts(EventsOf(x, chave)) == Facts(EventsOf(y, chave)) && TieResolved(Facts(EventsOf(x, chave)), company)
    requires var d, f := Deciding(EventsOf(x, chave), company), Deciding(EventsOf(y, chave), company);
             d.Some? && f.Some? && EventTime(f.value) == EventTime(d.value)
    ensures Deciding(EventsOf(x, chave), company).value.kind == Deciding(EventsOf(y, chave), company).value.kind
  {
    hide EventsOf, Told, Deciding;
    var a, b := EventsOf(x, chave), EventsOf(y, chave);
    var d, f := Deciding(a, company).value, Deciding(b, company).value;
    DecidingIsLatest(a, company);
    DecidingIsLatest(b, company);
    if EventTime(d) != 0 {
      SameWinner(x, y, chave, company);
    } else {
      assert FactOf(d) in Facts(a) && FactOf(f) in Facts(b);
      if g :| g in Facts(a) && ConclusiveFact(g, company) && TimeOf(g.stamp) != 0 {
        var e := WithFact(a, g);
        assert false;
      }
    }
  }

  /**
   Two histories with the same arrivals, in any order and with any repetitions, show every company the
   same situação and the same manifestação, also when conclusive events share a known time.
   */
  lemma ArrivalOrderIsIrrelevant(companies: map<CompanyId, Cnpj>, a: seq<Op>, b: seq<Op>, company: CompanyId,
                                 chave: Chave)
    requires WellFormedOps(companies, a) && WellFormedOps(companies, b) && CopiesAgree(AllSaid(a)) && SameArrivals(a, b)
    requires company in companies && TieResolved(HappenedFacts(a, chave), companies[company])
    ensures View(Run(companies, a), company, chave) == View(Run(companies, b), company, chave)
  {
    hide Run, EventsOf, ManifestacaoOf, TieResolved, SituacaoAfter, Copies, HappenedFacts;
    SameArrivalsSameSituacao(a, b, chave);
    RunSituacao(companies, a, chave);
    RunSituacao(companies, b, chave);
    RunSees(companies, a, company, chave);
    RunSees(companies, b, company, chave);
    if Arrived(a, company, chave) { SameSeen(a, b, company, chave); }
    if Arrived(b, company, chave) { SameSeen(b, a, company, chave); }
    RunShows(companies, a, company, chave);
    RunShows(companies, b, company, chave);
    RunTells(companies, a);
    RunTells(companies, b);
    RunFacts(companies, a, chave);
    RunFacts(companies, b, chave);
    if Arrived(a, company, chave) {
      SameTablesSameManifestacao(Run(companies, a).events, Run(companies, b).events, chave, companies[company]);
    }
  }

  /** What a company that sees the chave is shown is recomputed from the listing. */
  lemma RunShows(companies: map<CompanyId, Cnpj>, ops: seq<Op>, company: CompanyId, chave: Chave)
    requires WellFormedOps(companies, ops) && company in companies
    ensures KeysUnique(Run(companies, ops).events)
    ensures var db := Run(companies, ops);
            Sees(db, company, chave) ==>
              var rel := db.relations[(company, db.documents[chave].id)];
              (rel.manifestacao, rel.manifestacaoAt) == ManifestacaoOf(EventsOf(db.events, chave), companies[company])
  {
    hide Run, EventsOf, ManifestacaoOf;
    RunConsistent(companies, ops);
  }

  // ----- and only an event without a time can make the order matter -----

  /** The history without the events of one key, everything stored at 0. */
  function Others(ops: seq<Op>, k: Event): seq<Op> {
    if ops == [] then []
    else
      var front, last := Others(ops[..|ops| - 1], k), ops[|ops| - 1];
      if last.Arrive? then front + [last] else if SameKey(last.e, k) then front else front + [Happen(last.e, 0)]
  }

  /** The events of one key, stored at 1. */
  function OfKey(ops: seq<Op>, k: Event): seq<Op> {
    if ops == [] then []
    else
      var front, last := OfKey(ops[..|ops| - 1], k), ops[|ops| - 1];
      if last.Happen? && SameKey(last.e, k) then front + [Happen(last.e, 1)] else front
  }

  /** The same arrivals, with the events of one key stored after everything else. */
  function Delayed(ops: seq<Op>, k: Event): seq<Op> {
    Others(ops, k) + OfKey(ops, k)
  }

  lemma {:induction false} OthersAre(ops: seq<Op>, k: Event)
    ensures forall o :: o in Others(ops, k) <==>
              (o.Arrive? && o in ops) || (o.Happen? && o.now == 0 && !SameKey(o.e, k) && o.e in EventsIn(ops))
  {
    if ops != [] {
      var front, last := Split(ops);
      OthersAre(front, k);
      EventsSplit(ops);
    }
  }

  lemma {:induction false} OfKeyAre(ops: seq<Op>, k: Event)
    ensures forall o :: o in OfKey(ops, k) <==> o.Happen? && o.now == 1 && SameKey(o.e, k) && o.e in EventsIn(ops)
  {
    if ops != [] {
      var front, last := Split(ops);
      OfKeyAre(front, k);
      EventsSplit(ops);
    }
  }

  lemma EventsSplit(ops: seq<Op>)
    requires ops != []
    ensures var last := ops[|ops| - 1];
            EventsIn(ops) == EventsIn(ops[..|ops| - 1]) + if last.Happen? then {last.e} else {}
  {
    var front, last := Split(ops);
  }

  lemma DelayedArrives(companies: map<CompanyId, Cnpj>, ops: seq<Op>, k: Event)
    requires WellFormedOps(companies, ops)
    ensures SameArrivals(ops, Delayed(ops, k)) && WellFormedOps(companies, Delayed(ops, k))
    ensures forall o :: o in Delayed(ops, k) && o.Arrive? <==> o in ops && o.Arrive?
  {
    OthersAre(ops, k);
    OfKeyAre(ops, k);
    var d := Delayed(ops, k);
    forall e
      ensures e in EventsIn(ops) <==> e in EventsIn(d)
    {
      if e in EventsIn(ops) {
        var o := Happen(e, if SameKey(e, k) then 1 else 0);
        assert o in d;
      }
    }
    forall c
      ensures c in CopiesIn(ops) <==> c in CopiesIn(d)
    {
      if c in CopiesIn(ops) {
        var o :| o in ops && o.Arrive? && CopyOf(o.a) == c;
        assert o in d;
      }
    }
  }

  /** Rows are as old as the first event of their key. */
  predicate StoredAt(rows: seq<EventRow>, k: Event, t: Time) {
    forall i :: 0 <= i < |rows| ==> rows[i].createdAt == if SameKey(rows[i].event, k) then t else 0
  }

  predicate NoneOfKey(rows: seq<EventRow>, k: Event) {
    forall i :: 0 <= i < |rows| ==> !SameKey(rows[i].event, k)
  }

  lemma StepStoredAt(db: Db, op: Op, k: Event, t: Time)
    requires KeysUnique(db.events) && StoredAt(db.events, k, t)
    requires op.Happen? ==> op.now == if SameKey(op.e, k) then t else 0
    ensures StoredAt(Step(db, op).events, k, t)
    ensures NoneOfKey(db.events, k) && (op.Happen? ==> !SameKey(op.e, k)) ==> NoneOfKey(Step(db, op).events, k)
  {
    hide NfeStore.RefreshChave, EventsOf, UpsertEvent;
    match op
    case Arrive(a) => RefreshFrame(WithCopy(db, a), a.chave);
    case Happen(e, now) =>
      UpsertRows(db.events, e, now);
      RefreshFrame(db.(events := UpsertEvent(db.events, e, now)), e.chave);
  }

  lemma {:induction false} RunStoredAt(companies: map<CompanyId, Cnpj>, ops: seq<Op>, k: Event, n: nat)
    requires WellFormedOps(companies, ops) && n <= |ops|
    requires forall i :: 0 <= i < n ==> ops[i].Happen? ==> ops[i].now == 0 && !SameKey(ops[i].e, k)
    requires forall i :: n <= i < |ops| ==> ops[i].Happen? && ops[i].now == 1 && SameKey(ops[i].e, k)
    ensures StoredAt(Run(companies, ops).events, k, 1)
  {
    if ops != [] {
      var front, last := Split(ops);
      RunConsistent(companies, front);
      RunStoredAt(companies, front, k, if n < |ops| then n else |front|);
      StepStoredAt(Run(companies, front), last, k, 1);
    }
  }

  /** No event carries the zero time itself. */
  predicate NoZeroTimes(ops: seq<Op>) {
    forall s :: s in AllSaid(ops) && s.fact.stamp.Some? ==> s.fact.stamp.value.at != 0
  }

  /** Delaying the events of one key lets that event decide, when none that counts carries a time. */
  lemma DelayedDecides(companies: map<CompanyId, Cnpj>, ops: seq<Op>, company: CompanyId, chave: Chave, k: Event)
    requires WellFormedOps(companies, ops) && CopiesAgree(AllSaid(ops)) && NoZeroTimes(ops)
    requires company in companies && k.chave == chave && Arrived(ops, company, chave)
    requires k in EventsIn(ops) && Said(k) in Standing(AllSaid(ops)) && CountsConclusive(k, companies[company])
    requires forall f :: f in HappenedFacts(ops, chave) && ConclusiveFact(f, companies[company]) ==>
               TimeOf(f.stamp) == 0
    ensures var v := View(Run(companies, Delayed(ops, k)), company, chave);
            v.Some? && v.value.manifestacao == StateOf(k.kind)
  {
    hide Run, EventsOf, Deciding, Told, View, Sees, Others, OfKey, CopiesAgree, Standing;
    var d, cnpj := Delayed(ops, k), companies[company];
    var rows := Run(companies, d).events;
    DelayedArrives(companies, ops, k);
    SaidByEvents(ops);
    SaidByEvents(d);
    OthersAre(ops, k);
    OfKeyAre(ops, k);
    RunStoredAt(companies, d, k, |Others(ops, k)|);
    RunTells(companies, d);
    RunShows(companies, d, company, chave);
    RunSees(companies, d, company, chave);
    SameSeen(ops, d, company, chave);
    var e := WithSaying(rows, chave, Said(k));
    RunFacts(companies, d, chave);
    ConclusiveUntimed(ops, EventsOf(rows, chave), chave, cnpj);
    LastStoredDecides(rows, chave, cnpj, k, e);
    Shown(Run(companies, d), company, chave);
  }

  lemma Shown(db: Db, company: CompanyId, chave: Chave)
    requires Sees(db, company, chave)
    ensures View(db, company, chave).Some?
    ensures View(db, company, chave).value.manifestacao == db.relations[(company, db.documents[chave].id)].manifestacao
  {
  }

  lemma LastStoredDecides(rows: seq<EventRow>, chave: Chave, company: Cnpj, k: Event, e: Event)
    requires KeysUnique(rows) && StoredAt(rows, k, 1)
    requires e in EventsOf(rows, chave) && SameKey(e, k) && CountsConclusive(e, company)
    requires forall f :: f in EventsOf(rows, chave) && CountsConclusive(f, company) ==> StampOf(f).None?
    ensures ManifestacaoOf(EventsOf(rows, chave), company).0 == StateOf(e.kind)
  {
    hide ListRows, Deciding, EarliestCiencia, StampOf;
    var events, listed := EventsOf(rows, chave), ListRows(rows, chave);
    var i := DecidingDecides(events, company);
    if SameKey(events[i], k) {
      OneRowPerKey(rows, chave, events[i], e);
    } else {
      var j :| 0 <= j < |events| && events[j] == e;
      ListedRow(rows, chave, i);
      ListedRow(rows, chave, j);
      LaterStoredLater(rows, chave, j, i);
    }
  }

  /** Of two listed events without a time the one stored earlier comes first. */
  lemma LaterStoredLater(rows: seq<EventRow>, chave: Chave, j: nat, i: nat)
    requires j < |ListRows(rows, chave)| && i < |ListRows(rows, chave)| && j != i
    requires StampOf(ListRows(rows, chave)[i].event).None? && StampOf(ListRows(rows, chave)[j].event).None?
    requires ListRows(rows, chave)[i].createdAt < ListRows(rows, chave)[j].createdAt
    ensures i < j
  {
    hide ListRows;
    ListingIsSortedSelection(rows, chave);
  }

  /** A listed row is a table row without its link. */
  lemma ListedRow(rows: seq<EventRow>, chave: Chave, i: nat)
    requires i < |ListRows(rows, chave)|
    ensures exists j :: 0 <= j < |rows| && Unlinked(rows[j]) == ListRows(rows, chave)[i]
  {
    ListingIsSortedSelection(rows, chave);
    SelectedMembers(rows, chave);
    assert ListRows(rows, chave)[i] in multiset(ListRows(rows, chave));
    assert ListRows(rows, chave)[i] in Selected(rows, chave);
  }

  /** With no known conclusive time the conclusive events carry no time at all. */
  lemma ConclusiveUntimed(ops: seq<Op>, events: seq<Event>, chave: Chave, company: Cnpj)
    requires NoZeroTimes(ops) && Facts(events) == HappenedFacts(ops, chave)
    requires forall f :: f in HappenedFacts(ops, chave) && ConclusiveFact(f, company) ==> TimeOf(f.stamp) == 0
    ensures forall e :: e in events && CountsConclusive(e, company) ==> StampOf(e).None?
  {
    forall e | e in events && CountsConclusive(e, company)
      ensures StampOf(e).None?
    {
      assert FactOf(e) in Facts(events);
      var s :| s in AllSaid(ops) && s.chave == chave && s.fact == FactOf(e);
    }
  }

  /** Every history with the same arrivals shows the company the same. */
  ghost predicate OrderIsIrrelevant(companies: map<CompanyId, Cnpj>, ops: seq<Op>, company: CompanyId, chave: Chave) {
    forall other :: WellFormedOps(companies, other) && SameArrivals(ops, other) ==>
      View(Run(companies, other), company, chave) == View(Run(companies, ops), company, chave)
  }

  /**
   The order of arrival can change what a company sees exactly when its conclusive events, of more than
   one kind, all lack a time.
   */
  lemma OrderMattersExactlyWhenUntimed(companies: map<CompanyId, Cnpj>, ops: seq<Op>, company: CompanyId, chave: Chave)
    requires WellFormedOps(companies, ops) && CopiesAgree(AllSaid(ops)) && NoZeroTimes(ops)
    requires company in companies && Arrived(ops, company, chave)
    ensures OrderIsIrrelevant(companies, ops, company, chave) <==>
              TieResolved(HappenedFacts(ops, chave), companies[company])
  {
    hide Run, View, WellFormedOps, SameArrivals, CopiesAgree, Delayed;
    var cnpj := companies[company];
    if TieResolved(HappenedFacts(ops, chave), cnpj) {
      forall other | WellFormedOps(companies, other) && SameArrivals(ops, other)
        ensures View(Run(companies, other), company, chave) == View(Run(companies, ops), company, chave)
      {
        ArrivalOrderIsIrrelevant(companies, ops, other, company, chave);
      }
    } else {
      var f, g :| f in HappenedFacts(ops, chave) && g in HappenedFacts(ops, chave)
                  && ConclusiveFact(f, cnpj) && ConclusiveFact(g, cnpj) && f.kind != g.kind;
      var d := Happened(ops, chave, f);
      var e := Happened(ops, chave, g);
      DelayedArrives(companies, ops, d);
      DelayedArrives(companies, ops, e);
      DelayedDecides(companies, ops, company, chave, d);
      DelayedDecides(companies, ops, company, chave, e);
    }
  }

  lemma Happened(ops: seq<Op>, chave: Chave, f: Fact) returns (e: Event)
    requires f in HappenedFacts(ops, chave)
    ensures e in EventsIn(ops) && e.chave == chave && FactOf(e) == f && Said(e) in Standing(AllSaid(ops))
  {
    SaidByEvents(ops);
    var s :| s in Standing(AllSaid(ops)) && s.chave == chave && s.fact == f;
    e :| e in EventsIn(ops) && Said(e) == s;
  }
}
