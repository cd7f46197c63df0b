/**
 The whole life of the NF-e store: arrivals and events, recorded manifestações and company resets, in any
 order; and what a reset followed by a full pull restores.
 */
module NfeLifetime {
  import opened NfeTypes
  import opened NfeManifestacao
  import opened NfeMerge
  import opened NfeStore
  import opened NfeStoreProofs
  import opened NfeHistory
  import opened NfeOrder
  import opened DfeReset

  datatype Change =
    | Store(op: Op)
    | Record(items: seq<ManifestacaoRecord>, now: Time)
    | Drop(company: CompanyId)

  function Make(db: Db, c: Change): Db {
    match c
    case Store(op) => Step(db, op)
    case Record(items, now) => RecordAll(db, items, now)
    case Drop(company) => Reset(db, company)
  }

  function Live(companies: map<CompanyId, Cnpj>, changes: seq<Change>): Db {
    if changes == [] then EmptyDb(companies)
    else Make(Live(companies, changes[..|changes| - 1]), changes[|changes| - 1])
  }

  /** Documents come for registered companies, and generated identifiers never collide. */
  predicate WellFormedChanges(companies: map<CompanyId, Cnpj>, changes: seq<Change>) {
    && (forall c :: c in changes && c.Store? && c.op.Arrive? ==> c.op.a.company in companies)
    && (forall c, d | c in changes && d in changes && c.Store? && d.Store? && c.op.Arrive? && d.op.Arrive? ::
          c.op.a.newId == d.op.a.newId ==> c.op.a.chave == d.op.a.chave)
  }

  predicate IdArrived(changes: seq<Change>, chave: Chave, id: DocumentId) {
    exists c :: c in changes && c.Store? && c.op.Arrive? && c.op.a.chave == chave && c.op.a.newId == id
  }

  lemma RecordIds(db: Db, item: ManifestacaoRecord, now: Time)
    ensures var r := RecordOne(db, item, now);
            && r.companies == db.companies && r.documents.Keys == db.documents.Keys
            && forall c :: c in db.documents ==> r.documents[c].id == db.documents[c].id
  {
    hide EventsOf, UpsertEvent;
    var logged := db.(manifestacoes := db.manifestacoes + [item]);
    RefreshFrame(logged.(events := UpsertEvent(logged.events, ManifestacaoEvent(item), now)), item.chave);
  }

  lemma {:induction false} RecordAllIds(db: Db, items: seq<ManifestacaoRecord>, now: Time)
    ensures var r := RecordAll(db, items, now);
            && r.companies == db.companies && r.documents.Keys == db.documents.Keys
            && forall c :: c in db.documents ==> r.documents[c].id == db.documents[c].id
  {
    hide RecordOne;
    if items != [] {
      RecordAllIds(db, items[..|items| - 1], now);
      RecordIds(RecordAll(db, items[..|items| - 1], now), items[|items| - 1], now);
    }
  }

  lemma ChangeIds(db: Db, c: Change)
    ensures var r := Make(db, c);
            && r.companies == db.companies
            && (forall k :: k in r.documents ==>
                  || (k in db.documents && r.documents[k].id == db.documents[k].id)
                  || (c.Store? && c.op.Arrive? && c.op.a.chave == k && r.documents[k].id == c.op.a.newId))
  {
    hide RecordAll, EventsOf, NfeStore.RefreshChave;
    match c
    case Store(op) =>
      StepIds(db, op);
      StepCompanies(db, op);
    case Record(items, now) => RecordAllIds(db, items, now);
    case Drop(_) =>
  }

  lemma StepCompanies(db: Db, op: Op)
    ensures Step(db, op).companies == db.companies
  {
    match op
    case Happen(e, now) => RefreshFrame(db.(events := UpsertEvent(db.events, e, now)), e.chave);
    case Arrive(a) => RefreshFrame(WithCopy(db, a), a.chave);
  }

  /** In every state the store can live through, every cache equals its recomputation. */
  lemma {:induction false} LiveConsistent(companies: map<CompanyId, Cnpj>, changes: seq<Change>)
    requires WellFormedChanges(companies, changes)
    ensures Consistent(Live(companies, changes)) && Live(companies, changes).companies == companies
    ensures forall c :: c in Live(companies, changes).documents ==>
              IdArrived(changes, c, Live(companies, changes).documents[c].id)
  {
    if changes != [] {
      var n := |changes| - 1;
      var front, last := changes[..n], changes[n];
      assert changes == front + [last];
      LiveConsistent(companies, front);
      var db := Live(companies, front);
      LastConsistent(companies, changes, db);
      ChangeIds(db, last);
      forall c | c in Make(db, last).documents
        ensures IdArrived(changes, c, Make(db, last).documents[c].id)
      {
        StillArrived(front, last, c, Make(db, last).documents[c].id);
      }
    }
  }

  lemma StillArrived(front: seq<Change>, last: Change, chave: Chave, id: DocumentId)
    ensures IdArrived(front, chave, id) ==> IdArrived(front + [last], chave, id)
    ensures last.Store? && last.op.Arrive? && last.op.a.chave == chave && last.op.a.newId == id ==>
              IdArrived(front + [last], chave, id)
  {
    if IdArrived(front, chave, id) {
      var c :| c in front && c.Store? && c.op.Arrive? && c.op.a.chave == chave && c.op.a.newId == id;
      assert c in front + [last];
    }
    assert last in front + [last];
  }

  lemma LastConsistent(companies: map<CompanyId, Cnpj>, changes: seq<Change>, db: Db)
    requires changes != [] && WellFormedChanges(companies, changes) && Consistent(db) && db.companies == companies
    requires forall c :: c in db.documents ==> IdArrived(changes[..|changes| - 1], c, db.documents[c].id)
    ensures Consistent(Make(db, changes[|changes| - 1]))
  {
    hide Consistent, RecordAll, NfeStore.RefreshChave, Reset;
    var last := changes[|changes| - 1];
    assert last in changes;
    match last
    case Store(op) =>
      if op.Arrive? && op.a.chave !in db.documents {
        forall c | c in db.documents
          ensures db.documents[c].id != op.a.newId
        {
          var d :| d in changes[..|changes| - 1] && d.Store? && d.op.Arrive? && d.op.a.chave == c
                   && d.op.a.newId == db.documents[c].id;
          assert d in changes;
        }
      }
      StepConsistent(db, op);
    case Record(items, now) => RecordInvariant(db, items, now);
    case Drop(company) => ResetConsistent(db, company);
  }

  // ----- a reset, and everything pulled again -----

  function RunFrom(db: Db, ops: seq<Op>): Db {
    if ops == [] then db else Step(RunFrom(db, ops[..|ops| - 1]), ops[|ops| - 1])
  }

  function Stores(ops: seq<Op>): seq<Change> {
    seq(|ops|, i requires 0 <= i < |ops| => Store(ops[i]))
  }

  lemma {:induction false} LiveStores(companies: map<CompanyId, Cnpj>, before: seq<Change>, ops: seq<Op>)
    ensures Live(companies, before + Stores(ops)) == RunFrom(Live(companies, before), ops)
  {
    hide Step;
    if ops == [] {
      assert before + Stores(ops) == before;
    } else {
      var n := |ops| - 1;
      var all := before + Stores(ops);
      LiveStores(companies, before, ops[..n]);
      assert all[..|all| - 1] == before + Stores(ops[..n]) && all[|all| - 1] == Store(ops[n]);
    }
  }

  lemma {:induction false} RunFromEmpty(companies: map<CompanyId, Cnpj>, ops: seq<Op>)
    ensures RunFrom(EmptyDb(companies), ops) == Run(companies, ops)
  {
    if ops != [] {
      RunFromEmpty(companies, ops[..|ops| - 1]);
    }
  }

  /** The rows hold what stands of what they held and of what happened since. */
  lemma {:induction false} TailTells(db: Db, ops: seq<Op>)
    requires KeysUnique(db.events) && CopiesAgree(Told(db.events) + AllSaid(ops))
    ensures KeysUnique(RunFrom(db, ops).events)
    ensures Told(RunFrom(db, ops).events) == Standing(Told(db.events) + AllSaid(ops))
  {
    if ops == [] {
      RowsStand(db.events);
      assert Told(db.events) + AllSaid(ops) == Told(db.events);
    } else {
      hide Step, Told, Standing, CopiesAgree, KeysUnique;
      var front, last := Split(ops);
      AllSaidSplit(ops);
      FewerAgree(Told(db.events) + AllSaid(front), Told(db.events) + AllSaid(ops));
      TailTells(db, front);
      StepKeys(RunFrom(db, front), last);
      StepTells(RunFrom(db, front), last, Told(db.events) + AllSaid(front));
      if last.Happen? {
        assert Told(db.events) + AllSaid(front) + {Said(last.e)} == Told(db.events) + AllSaid(ops);
      } else {
        assert Told(db.events) + AllSaid(front) == Told(db.events) + AllSaid(ops);
      }
    }
  }

  /** With one row of each event, all that the rows hold stands. */
  lemma RowsStand(rows: seq<EventRow>)
    requires KeysUnique(rows)
    ensures Standing(Told(rows)) == Told(rows)
  {
    forall s, t | s in Told(rows) && t in Told(rows) && OneKey(s, t)
      ensures s == t
    {
      var i :| 0 <= i < |rows| && Said(rows[i].event) == s;
      var j :| 0 <= j < |rows| && Said(rows[j].event) == t;
      assert SameKey(rows[i].event, rows[j].event) && SameKey(rows[j].event, rows[i].event);
    }
  }

  /** A company sees what it saw and what has arrived for it since. */
  lemma {:induction false} TailSees(db: Db, ops: seq<Op>, company: CompanyId, chave: Chave)
    requires forall k :: 0 <= k <= |ops| ==> IdsUnique(RunFrom(db, ops[..k])) && RelationsResolve(RunFrom(db, ops[..k]))
    ensures Sees(RunFrom(db, ops), company, chave) <==> Sees(db, company, chave) || Arrived(ops, company, chave)
  {
    if ops != [] {
      hide IdsUnique, RelationsResolve, Sees, Step;
      var front, last := Split(ops);
      forall k | 0 <= k <= |front|
        ensures IdsUnique(RunFrom(db, front[..k])) && RelationsResolve(RunFrom(db, front[..k]))
      {
        assert front[..k] == ops[..k];
      }
      TailSees(db, front, company, chave);
      assert ops[..|ops|] == ops && ops[..|front|] == front;
      StepSees(RunFrom(db, front), last, company, chave);
      assert Arrived(ops, company, chave) <==>
          Arrived(front, company, chave) || (last.Arrive? && last.a.company == company && last.a.chave == chave) by {
        assert last in ops;
      }
    }
  }

  /** The severity of a stored document, 0 for none. */
  function SeverityIn(db: Db, chave: Chave): nat {
    if chave in db.documents then Severity(db.documents[chave].situacao) else 0
  }

  function WorstOf(copies: seq<Document>): nat {
    if copies == [] then 0
    else
      var last := Severity(copies[|copies| - 1].situacao);
      var front := WorstOf(copies[..|copies| - 1]);
      if last > front then last else front
  }

  function Most(a: nat, b: nat): nat {
    if a >= b then a else b
  }

  lemma {:induction false} WorstOfIs(copies: seq<Document>)
    requires copies != []
    ensures WorstOf(copies) == Severity(WorstSituacao(copies))
  {
    if |copies| > 1 {
      WorstOfIs(copies[..|copies| - 1]);
    } else {
      assert copies[..0] == [];
    }
  }

  lemma {:induction false} WorstOfMembers(copies: seq<Document>)
    ensures forall d :: d in copies ==> Severity(d.situacao) <= WorstOf(copies)
    ensures copies != [] ==> exists d :: d in copies && Severity(d.situacao) == WorstOf(copies)
  {
    if copies != [] {
      var n := |copies| - 1;
      WorstOfMembers(copies[..n]);
      assert copies == copies[..n] + [copies[n]];
      assert copies[n] in copies;
    }
  }

  /** While no registered cancelamento is listed, the document is as severe as all it was made of. */
  lemma {:induction false} TailSituacao(db: Db, ops: seq<Op>, chave: Chave)
    requires KeysUnique(db.events) && CopiesAgree(Told(db.events) + AllSaid(ops))
    requires !CancelFact(Facts(EventsOf(RunFrom(db, ops).events, chave)))
    ensures SeverityIn(RunFrom(db, ops), chave) == Most(SeverityIn(db, chave), WorstOf(Copies(ops, chave)))
  {
    if ops != [] {
      hide EventsOf, Step, Told, Said, SeverityIn, HasRegisteredCancelamento, AllSaid, CancelFact, CopiesAgree;
      var front, last := Split(ops);
      StillNotCancelled(db, ops, chave);
      TailSituacao(db, front, chave);
      StepSeverity(RunFrom(db, front), last, chave);
      CopiesSplit(ops, chave);
    }
  }

  lemma CopiesSplit(ops: seq<Op>, chave: Chave)
    requires ops != []
    ensures var front, last := ops[..|ops| - 1], ops[|ops| - 1];
            WorstOf(Copies(ops, chave)) ==
              Most(WorstOf(Copies(front, chave)),
                   if last.Arrive? && last.a.chave == chave then Severity(last.a.document.situacao) else 0)
  {
    var front, last := ops[..|ops| - 1], ops[|ops| - 1];
    var copies := Copies(front, chave);
    if last.Arrive? && last.a.chave == chave {
      assert (copies + [last.a.document])[..|copies|] == copies;
    } else {
      assert Copies(ops, chave) == copies;
    }
  }

  /** What is not cancelled at the end was not cancelled a step before. */
  lemma StillNotCancelled(db: Db, ops: seq<Op>, chave: Chave)
    requires ops != [] && KeysUnique(db.events) && CopiesAgree(Told(db.events) + AllSaid(ops))
    requires !CancelFact(Facts(EventsOf(RunFrom(db, ops).events, chave)))
    ensures var front := ops[..|ops| - 1];
            && CopiesAgree(Told(db.events) + AllSaid(front))
            && !CancelFact(Facts(EventsOf(RunFrom(db, front).events, chave)))
            && !HasRegisteredCancelamento(EventsOf(RunFrom(db, ops).events, chave))
  {
    hide EventsOf, Step, Told, Said, RunFrom;
    var front := ops[..|ops| - 1];
    AllSaidSplit(ops);
    TailTells(db, front);
    TailTells(db, ops);
    ListedFacts(RunFrom(db, front).events, chave);
    ListedFacts(RunFrom(db, ops).events, chave);
    CancelShows(EventsOf(RunFrom(db, ops).events, chave));
  }

  lemma StepSeverity(db: Db, op: Op, chave: Chave)
    requires !HasRegisteredCancelamento(EventsOf(Step(db, op).events, chave))
    ensures SeverityIn(Step(db, op), chave) == Most(SeverityIn(db, chave),
              if op.Arrive? && op.a.chave == chave then Severity(op.a.document.situacao) else 0)
  {
    hide EventsOf, Step;
    StepSituacao(db, op, chave);
  }

  /** The company's copies of this history come again, and no others; every event comes again or was kept. */
  predicate PullsAgain(db: Db, ops: seq<Op>, again: seq<Op>, company: CompanyId) {
    && CopiesIn(again) == (set c | c in CopiesIn(ops) && c.company == company)
    && EventsIn(again) <= EventsIn(ops)
    && Standing(AllSaid(ops)) <= Told(Reset(db, company).events) + AllSaid(again)
  }

  lemma ResetTells(db: Db, company: CompanyId)
    ensures Told(Reset(db, company).events) <= Told(db.events)
  {
    hide DeletesEvent, ExclusiveIds;
    var ids, rows := ExclusiveIds(db, company), Reset(db, company).events;
    var kept := KeptEvents(db, company, ids, db.events);
    KeptAre(db, company, ids, db.events);
    forall s | s in Told(rows)
      ensures s in Told(db.events)
    {
      var i :| 0 <= i < |rows| && Said(rows[i].event) == s;
      assert kept[i] in kept && kept[i].event == rows[i].event;
    }
  }

  /** Leaving out sayings that do not stand changes nothing. */
  lemma SameStanding(fewer: set<Saying>, said: set<Saying>)
    requires fewer <= said && Standing(said) <= fewer
    ensures Standing(fewer) == Standing(said)
  {
    forall s | s in Standing(fewer)
      ensures s in Standing(said)
    {
      if c :| c in said && OneKey(c, s) && c.completeness.Completa? {
        assert c in Standing(said);
      }
    }
  }

  /** After the reset and the pulls the rows tell what they told before. */
  lemma SameRowsTold(db: Db, ops: seq<Op>, again: seq<Op>, company: CompanyId)
    requires KeysUnique(db.events) && Told(db.events) == Standing(AllSaid(ops)) && CopiesAgree(AllSaid(ops))
    requires PullsAgain(db, ops, again, company)
    ensures CopiesAgree(Told(Reset(db, company).events) + AllSaid(again)) && KeysUnique(Reset(db, company).events)
    ensures Told(RunFrom(Reset(db, company), again).events) == Standing(AllSaid(ops))
  {
    hide Told, RunFrom, AllSaid, CopiesAgree, KeysUnique, Reset;
    var kept := Told(Reset(db, company).events);
    ResetTells(db, company);
    ResetKeys(db, company);
    SaidByEvents(ops);
    SaidByEvents(again);
    assert kept + AllSaid(again) <= AllSaid(ops);
    FewerAgree(kept + AllSaid(again), AllSaid(ops));
    SameStanding(kept + AllSaid(again), AllSaid(ops));
    TailTells(Reset(db, company), again);
  }

  /** A copy that came for another company keeps its document through the reset. */
  lemma OtherCopySurvives(companies: map<CompanyId, Cnpj>, ops: seq<Op>, company: CompanyId, a: Arrival)
    requires WellFormedOps(companies, ops) && Arrive(a) in ops && a.company != company
    ensures a.chave in Reset(Run(companies, ops), company).documents
  {
    hide Run, WellFormedOps, Reset;
    var db := Run(companies, ops);
    RunSees(companies, ops, a.company, a.chave);
    SharedDocumentSurvives(db, company, a.chave, (a.company, db.documents[a.chave].id));
  }

  lemma SameWorst(a: seq<Document>, b: seq<Document>)
    requires forall d :: d in a ==> d in b
    ensures WorstOf(a) <= WorstOf(b)
  {
    WorstOfMembers(a);
    WorstOfMembers(b);
  }

  /** Without another company's copy, every copy comes again. */
  lemma OwnCopiesReturn(companies: map<CompanyId, Cnpj>, ops: seq<Op>, again: seq<Op>, company: CompanyId, chave: Chave)
    requires WellFormedOps(companies, ops) && CopiesIn(again) == (set c | c in CopiesIn(ops) && c.company == company)
    requires chave !in Reset(Run(companies, ops), company).documents
    ensures forall d :: d in Copies(ops, chave) ==> d in Copies(again, chave)
  {
    hide Run, WellFormedOps, Reset;
    CopiesAre(ops, chave);
    CopiesAre(again, chave);
    forall d | d in Copies(ops, chave)
      ensures d in Copies(again, chave)
    {
      var o :| o in ops && o.Arrive? && o.a.chave == chave && o.a.document == d;
      if o.a.company != company {
        OtherCopySurvives(companies, ops, company, o.a);
      } else {
        assert CopyOf(o.a) in CopiesIn(ops);
        assert CopyOf(o.a) in CopiesIn(again);
        var p :| p in again && p.Arrive? && CopyOf(p.a) == CopyOf(o.a);
      }
    }
  }

  /** The copies that come again make the document as severe as it was. */
  lemma SameSeverity(companies: map<CompanyId, Cnpj>, ops: seq<Op>, again: seq<Op>, company: CompanyId, chave: Chave)
    requires WellFormedOps(companies, ops) && PullsAgain(Run(companies, ops), ops, again, company)
    requires SeverityIn(Run(companies, ops), chave) == WorstOf(Copies(ops, chave))
    ensures Most(SeverityIn(Reset(Run(companies, ops), company), chave), WorstOf(Copies(again, chave)))
         == SeverityIn(Run(companies, ops), chave)
  {
    hide Run, WellFormedOps, AllSaid, Told, KeptEvents, UnlinkEvents, WorstOf, Copies, ExclusiveIds;
    SameCopies(again, ops, chave);
    SameWorst(Copies(again, chave), Copies(ops, chave));
    if chave !in Reset(Run(companies, ops), company).documents {
      OwnCopiesReturn(companies, ops, again, company, chave);
      SameWorst(Copies(ops, chave), Copies(again, chave));
    }
  }

  lemma SameArrived(ops: seq<Op>, again: seq<Op>, company: CompanyId, chave: Chave)
    requires CopiesIn(again) == (set c | c in CopiesIn(ops) && c.company == company)
    ensures Arrived(ops, company, chave) <==> Arrived(again, company, chave)
  {
    if Arrived(ops, company, chave) {
      var o :| o in ops && o.Arrive? && o.a.company == company && o.a.chave == chave;
      assert CopyOf(o.a) in CopiesIn(ops);
      assert CopyOf(o.a) in CopiesIn(again);
      var p :| p in again && p.Arrive? && CopyOf(p.a) == CopyOf(o.a);
    }
    if Arrived(again, company, chave) {
      SameSeen(again, ops, company, chave);
    }
  }

  /** A stretch of legal stores after a legal life keeps the store consistent throughout. */
  lemma TailConsistent(companies: map<CompanyId, Cnpj>, before: seq<Change>, ops: seq<Op>, k: nat)
    requires WellFormedChanges(companies, before + Stores(ops)) && k <= |ops|
    ensures Consistent(RunFrom(Live(companies, before), ops[..k]))
    ensures RunFrom(Live(companies, before), ops[..k]).companies == companies
  {
    hide Live, RunFrom, Consistent;
    var changes := before + Stores(ops[..k]);
    forall c | c in changes
      ensures c in before + Stores(ops)
    {
      if c in Stores(ops[..k]) {
        var i :| 0 <= i < k && Stores(ops[..k])[i] == c;
        assert Stores(ops)[i] == c;
      }
    }
    LiveStores(companies, before, ops[..k]);
    LiveConsistent(companies, changes);
  }

  /** What a company is shown, from the parts that determine it. */
  lemma SameView(x: Db, y: Db, company: CompanyId, chave: Chave)
    requires Consistent(x) && Consistent(y) && x.companies == y.companies && company in x.companies
    requires Sees(x, company, chave) <==> Sees(y, company, chave)
    requires ToldOf(x.events, chave) == ToldOf(y.events, chave)
    requires TieResolved(Facts(EventsOf(x.events, chave)), x.companies[company])
    requires Facts(EventsOf(x.events, chave)) == Facts(EventsOf(y.events, chave))
    requires !CancelFact(Facts(EventsOf(x.events, chave))) ==> SeverityIn(x, chave) == SeverityIn(y, chave)
    ensures View(x, company, chave) == View(y, company, chave)
  {
    hide EventsOf, ToldOf, ManifestacaoOf, TieResolved, KeysUnique, LinksExact, RelationsResolve, DocumentsSeen,
         IdsUnique;
    if Sees(x, company, chave) {
      SameTablesSameManifestacao(x.events, y.events, chave, x.companies[company]);
      CancelShows(EventsOf(x.events, chave));
      CancelShows(EventsOf(y.events, chave));
    }
  }

  /** The life is the history, the reset and the pulls, and ends consistent. */
  lemma LifeOf(companies: map<CompanyId, Cnpj>, ops: seq<Op>, again: seq<Op>, company: CompanyId)
    requires WellFormedChanges(companies, Stores(ops) + [Drop(company)] + Stores(again))
    ensures var r := Reset(Run(companies, ops), company);
            && Live(companies, Stores(ops) + [Drop(company)]) == r
            && Live(companies, Stores(ops) + [Drop(company)] + Stores(again)) == RunFrom(r, again)
            && Consistent(RunFrom(r, again)) && RunFrom(r, again).companies == companies
  {
    hide WellFormedChanges, Consistent, RunFrom, Run, Reset;
    var dropped := Stores(ops) + [Drop(company)];
    assert [] + Stores(ops) == Stores(ops);
    LiveStores(companies, [], ops);
    RunFromEmpty(companies, ops);
    assert dropped[..|dropped| - 1] == Stores(ops);
    LiveStores(companies, dropped, again);
    TailConsistent(companies, dropped, again, |again|);
    assert again[..|again|] == again;
  }

  lemma EndFacts(db: Db, end: Db, ops: seq<Op>, chave: Chave)
    requires Told(db.events) == Told(end.events) == Standing(AllSaid(ops))
    ensures ToldOf(db.events, chave) == ToldOf(end.events, chave)
    ensures Facts(EventsOf(db.events, chave)) == Facts(EventsOf(end.events, chave)) == HappenedFacts(ops, chave)
  {
    hide EventsOf, Told, AllSaid;
    ListedFacts(db.events, chave);
    ListedFacts(end.events, chave);
  }

  lemma EndSees(companies: map<CompanyId, Cnpj>, ops: seq<Op>, again: seq<Op>, company: CompanyId, chave: Chave)
    requires WellFormedOps(companies, ops)
    requires WellFormedChanges(companies, Stores(ops) + [Drop(company)] + Stores(again))
    requires PullsAgain(Run(companies, ops), ops, again, company)
    ensures var db := Run(companies, ops);
            Sees(RunFrom(Reset(db, company), again), company, chave) <==> Sees(db, company, chave)
  {
    hide Run, RunFrom, Live, WellFormedChanges, WellFormedOps, Told, AllSaid;
    var r := Reset(Run(companies, ops), company);
    LifeOf(companies, ops, again, company);
    forall k | 0 <= k <= |again|
      ensures IdsUnique(RunFrom(r, again[..k])) && RelationsResolve(RunFrom(r, again[..k]))
    {
      TailConsistent(companies, Stores(ops) + [Drop(company)], again, k);
    }
    TailSees(r, again, company, chave);
    RunSees(companies, ops, company, chave);
    SameArrived(ops, again, company, chave);
  }

  lemma EndSeverity(companies: map<CompanyId, Cnpj>, ops: seq<Op>, again: seq<Op>, company: CompanyId, chave: Chave)
    requires WellFormedOps(companies, ops) && CopiesAgree(AllSaid(ops))
    requires PullsAgain(Run(companies, ops), ops, again, company)
    requires !CancelFact(HappenedFacts(ops, chave))
    ensures var db := Run(companies, ops);
            SeverityIn(RunFrom(Reset(db, company), again), chave) == SeverityIn(db, chave)
  {
    hide Run, RunFrom, WellFormedOps, Told, AllSaid, Reset, PullsAgain, EventsOf, CancelFact, SeverityIn, Copies;
    var db := Run(companies, ops);
    var r := Reset(db, company);
    RunTells(companies, ops);
    SameRowsTold(db, ops, again, company);
    EndFacts(db, RunFrom(r, again), ops, chave);
    TailSituacao(r, again, chave);
    RunFromEmpty(companies, ops);
    EmptyTells(companies, ops, chave);
    TailSituacao(EmptyDb(companies), ops, chave);
    SameSeverity(companies, ops, again, company, chave);
  }

  lemma EmptyTells(companies: map<CompanyId, Cnpj>, ops: seq<Op>, chave: Chave)
    ensures Told(EmptyDb(companies).events) + AllSaid(ops) == AllSaid(ops) && KeysUnique(EmptyDb(companies).events)
    ensures SeverityIn(EmptyDb(companies), chave) == 0
  {
  }

  /**
   A company that is reset and pulls all its copies again, with every event the reset removed, is shown
   exactly what it was shown before the reset.
   */
  lemma RepullRestores(companies: map<CompanyId, Cnpj>, ops: seq<Op>, again: seq<Op>, company: CompanyId, chave: Chave)
    requires WellFormedOps(companies, ops) && CopiesAgree(AllSaid(ops)) && company in companies
    requires WellFormedChanges(companies, Stores(ops) + [Drop(company)] + Stores(again))
    requires PullsAgain(Run(companies, ops), ops, again, company)
    requires TieResolved(HappenedFacts(ops, chave), companies[company])
    ensures View(Live(companies, Stores(ops) + [Drop(company)] + Stores(again)), company, chave)
         == View(Run(companies, ops), company, chave)
  {
    hide Run, RunFrom, Live, Reset, View, EventsOf, Told, AllSaid, CopiesAgree, PullsAgain, TieResolved, WellFormedOps,
         WellFormedChanges, HappenedFacts, ToldOf, SeverityIn, CancelFact;
    var db := Run(companies, ops);
    var r := Reset(db, company);
    var end := RunFrom(r, again);
    LifeOf(companies, ops, again, company);
    RunConsistent(companies, ops);
    RunTells(companies, ops);
    RunFacts(companies, ops, chave);
    SameRowsTold(db, ops, again, company);
    EndFacts(db, end, ops, chave);
    EndSees(companies, ops, again, company, chave);
    if !CancelFact(Facts(EventsOf(db.events, chave))) {
      EndSeverity(companies, ops, again, company, chave);
    }
    SameView(end, db, company, chave);
  }
}
