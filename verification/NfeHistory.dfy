/**
 Whole histories of the NF-e store: documents and events of any chaves, for any companies, in any
 order and any number of times. What the store ends with depends only on what arrived.
 */
module NfeHistory {
  import opened Wrappers
  import opened NfeTypes
  import opened NfeManifestacao
  import opened NfeMerge
  import opened NfeStore
  import opened NfeStoreProofs

  datatype Op = Arrive(a: Arrival) | Happen(e: Event, now: Time)

  function Step(db: Db, op: Op): Db {
    match op
    case Arrive(a) => ApplyDocument(db, a)
    case Happen(e, now) => ApplyEvent(db, e, now)
  }

  function EmptyDb(companies: map<CompanyId, Cnpj>): Db {
    Db(companies, map[], map[], [], map[], [])
  }

  function Run(companies: map<CompanyId, Cnpj>, ops: seq<Op>): Db {
    if ops == [] then EmptyDb(companies) else Step(Run(companies, ops[..|ops| - 1]), ops[|ops| - 1])
  }

  // ----- what the source relies on -----

  /** Documents come for registered companies, and generated identifiers never collide. */
  predicate WellFormedOps(companies: map<CompanyId, Cnpj>, ops: seq<Op>) {
    && (forall o :: o in ops && o.Arrive? ==> o.a.company in companies)
    && (forall o, p :: o in ops && p in ops && o.Arrive? && p.Arrive? && o.a.newId == p.a.newId ==>
         o.a.chave == p.a.chave)
  }

  /** What one copy of an event says, under the key its row has. */
  datatype Saying = Saying(chave: Chave, tpEvento: nat, nSeqEvento: nat, completeness: Completeness, fact: Fact)

  function Said(e: Event): Saying {
    Saying(e.chave, e.tpEvento, e.nSeqEvento, e.completeness, FactOf(e))
  }

  function AllSaid(ops: seq<Op>): set<Saying> {
    set o | o in ops && o.Happen? :: Said(o.e)
  }

  predicate OneKey(s: Saying, t: Saying) {
    s.chave == t.chave && s.tpEvento == t.tpEvento && s.nSeqEvento == t.nSeqEvento
  }

  /** Copies of one event agree on type, author and registration; on the time only a resumo may differ. */
  predicate CopiesAgree(said: set<Saying>) {
    forall s, t | s in said && t in said && OneKey(s, t) ::
      && s.fact.kind == t.fact.kind && s.fact.author == t.fact.author && s.fact.registered == t.fact.registered
      && (s.completeness == t.completeness ==> s.fact.stamp == t.fact.stamp)
  }

  /** A completa stands; a resumo only while no completa of its event is known. */
  predicate Stands(said: set<Saying>, s: Saying) {
    s.completeness.Completa? || forall t :: t in said && OneKey(t, s) ==> t.completeness.Resumo?
  }

  function Standing(said: set<Saying>): set<Saying> {
    set s | s in said && Stands(said, s)
  }

  // ----- what arrived -----

  function Copies(ops: seq<Op>, chave: Chave): seq<Document> {
    if ops == [] then []
    else
      var last := ops[|ops| - 1];
      Copies(ops[..|ops| - 1], chave) + if last.Arrive? && last.a.chave == chave then [last.a.document] else []
  }

  function HappenedFacts(ops: seq<Op>, chave: Chave): set<Fact> {
    set s | s in Standing(AllSaid(ops)) && s.chave == chave :: s.fact
  }

  predicate Arrived(ops: seq<Op>, company: CompanyId, chave: Chave) {
    exists o :: o in ops && o.Arrive? && o.a.company == company && o.a.chave == chave
  }

  predicate CancelFact(facts: set<Fact>) {
    exists f :: f in facts && f.registered && f.kind.Cancelamento?
  }

  // ----- by induction over the history -----

  lemma Split(ops: seq<Op>) returns (front: seq<Op>, last: Op)
    requires ops != []
    ensures front == ops[..|ops| - 1] && last == ops[|ops| - 1] && ops == front + [last]
    ensures forall o :: o in ops <==> o in front || o == last
  {
    front, last := ops[..|ops| - 1], ops[|ops| - 1];
  }

  predicate IdFromArrivals(ops: seq<Op>, chave: Chave, id: DocumentId) {
    exists o :: o in ops && o.Arrive? && o.a.chave == chave && o.a.newId == id
  }

  lemma {:induction false} RunConsistent(companies: map<CompanyId, Cnpj>, ops: seq<Op>)
    requires WellFormedOps(companies, ops)
    ensures Consistent(Run(companies, ops)) && Run(companies, ops).companies == companies
    ensures forall c :: c in Run(companies, ops).documents ==>
              IdFromArrivals(ops, c, Run(companies, ops).documents[c].id)
  {
    if ops != [] {
      var front, last := Split(ops);
      RunConsistent(companies, front);
      var db := Run(companies, front);
      if last.Arrive? {
        FreshIdentifier(companies, ops, front, last.a);
      }
      StepConsistent(db, last);
      StepIds(db, last);
      var r := Step(db, last);
      forall c | c in r.documents
        ensures IdFromArrivals(ops, c, r.documents[c].id)
      {
        if c in db.documents {
          var o :| o in front && o.Arrive? && o.a.chave == c && o.a.newId == db.documents[c].id;
          assert o in ops;
        } else {
          assert last in ops;
        }
      }
    }
  }

  lemma StepConsistent(db: Db, op: Op)
    requires Consistent(db) && (op.Arrive? ==> op.a.company in db.companies && IdAvailable(db, op.a))
    ensures Consistent(Step(db, op)) && Step(db, op).companies == db.companies
  {
    match op
    case Happen(e, now) =>
      EventInvariant(db, e, now);
      RefreshFrame(db.(events := UpsertEvent(db.events, e, now)), e.chave);
    case Arrive(a) =>
      DocumentInvariant(db, a);
      RefreshFrame(WithCopy(db, a), a.chave);
  }

  /** Documents appear only by arriving, and keep their identifier. */
  lemma StepIds(db: Db, op: Op)
    ensures var r := Step(db, op);
            && (forall c :: c in db.documents ==> c in r.documents && r.documents[c].id == db.documents[c].id)
            && (forall c :: c in r.documents && c !in db.documents ==>
                  op.Arrive? && op.a.chave == c && r.documents[c].id == op.a.newId)
  {
    match op
    case Happen(e, now) => RefreshFrame(db.(events := UpsertEvent(db.events, e, now)), e.chave);
    case Arrive(a) => RefreshFrame(WithCopy(db, a), a.chave);
  }

  lemma FreshIdentifier(companies: map<CompanyId, Cnpj>, ops: seq<Op>, front: seq<Op>, a: Arrival)
    requires WellFormedOps(companies, ops) && ops == front + [Arrive(a)]
    requires forall c :: c in Run(companies, front).documents ==>
               IdFromArrivals(front, c, Run(companies, front).documents[c].id)
    ensures IdAvailable(Run(companies, front), a)
  {
    var db := Run(companies, front);
    if a.chave !in db.documents {
      forall c | c in db.documents
        ensures db.documents[c].id != a.newId
      {
        var o :| o in front && o.Arrive? && o.a.chave == c && o.a.newId == db.documents[c].id;
        assert o in ops && Arrive(a) in ops;
      }
    }
  }

  // ----- the event table -----

  function Told(rows: seq<EventRow>): set<Saying> {
    set row | row in rows :: Said(row.event)
  }

  lemma ToldByPosition(a: seq<EventRow>, b: seq<EventRow>)
    requires |a| == |b| && forall i :: 0 <= i < |a| ==> a[i].event == b[i].event
    ensures Told(a) == Told(b)
  {
    forall s
      ensures s in Told(a) <==> s in Told(b)
    {
      if s in Told(a) {
        var i :| 0 <= i < |a| && Said(a[i].event) == s;
        assert b[i] in b;
      }
      if s in Told(b) {
        var i :| 0 <= i < |b| && Said(b[i].event) == s;
        assert a[i] in a;
      }
    }
  }

  /** Of every event something stands. */
  lemma SomethingStands(said: set<Saying>, t: Saying) returns (s: Saying)
    requires t in said
    ensures s in Standing(said) && OneKey(s, t)
  {
    s := t;
    if c :| c in said && OneKey(c, t) && c.completeness.Completa? {
      s := c;
    }
  }

  /** Rows that hold what stands hold one saying of every event. */
  lemma KeyHasRow(rows: seq<EventRow>, said: set<Saying>, e: Event, t: Saying)
    requires Told(rows) == Standing(said) && t in said && OneKey(t, Said(e))
    ensures HasEvent(rows, e)
  {
    var s := SomethingStands(said, t);
    var row :| row in rows && Said(row.event) == s;
    var i :| 0 <= i < |rows| && rows[i] == row;
    assert SameKey(rows[i].event, e);
  }

  /** A new event stands beside all the others. */
  lemma NewKeyStands(rows: seq<EventRow>, said: set<Saying>, e: Event)
    requires Told(rows) == Standing(said) && !HasEvent(rows, e)
    ensures Standing(said + {Said(e)}) == Standing(said) + {Said(e)}
  {
    hide Told, Said, HasEvent;
    forall t | t in said
      ensures !OneKey(t, Said(e))
    {
      if OneKey(t, Said(e)) {
        KeyHasRow(rows, said, e, t);
      }
    }
  }

  /** Which of two copies of one event stands: the rule of the upsert. */
  lemma KnownKeyStands(said: set<Saying>, u: Saying, s: Saying)
    requires u in Standing(said) && OneKey(u, s) && CopiesAgree(said + {s})
    ensures forall t :: t in Standing(said + {s}) <==>
              if OneKey(t, s) then t == (if u.completeness.Completa? && s.completeness.Resumo? then u else s)
              else t in Standing(said)
  {
    forall t
      ensures t in Standing(said + {s}) <==>
                if OneKey(t, s) then t == (if u.completeness.Completa? && s.completeness.Resumo? then u else s)
                else t in Standing(said)
    {
      if OneKey(t, s) {
        assert u in said + {s} && s in said + {s} && OneKey(u, t) && OneKey(t, u);
      }
    }
  }

  /** The rows after an upsert hold what stands of all that was said. */
  lemma UpsertTells(rows: seq<EventRow>, e: Event, now: Time, said: set<Saying>)
    requires KeysUnique(rows) && Told(rows) == Standing(said) && CopiesAgree(said + {Said(e)})
    ensures Told(UpsertEvent(rows, e, now)) == Standing(said + {Said(e)})
  {
    hide Standing, CopiesAgree, UpsertEvent;
    var r := UpsertEvent(rows, e, now);
    UpsertRows(rows, e, now);
    if HasEvent(rows, e) {
      var i :| 0 <= i < |rows| && SameKey(rows[i].event, e);
      assert rows[i] in rows;
      KnownKeyStands(said, Said(rows[i].event), Said(e));
      ReplacedTold(rows, r, e, i);
    } else {
      NewKeyStands(rows, said, e);
      AppendedTold(rows, EventRow(e, None, now));
    }
  }

  lemma AppendedTold(rows: seq<EventRow>, row: EventRow)
    ensures Told(rows + [row]) == Told(rows) + {Said(row.event)}
  {
    assert row in rows + [row];
  }

  lemma ReplacedTold(rows: seq<EventRow>, r: seq<EventRow>, e: Event, i: nat)
    requires KeysUnique(rows) && i < |rows| == |r| && SameKey(rows[i].event, e)
    requires forall k :: 0 <= k < |rows| ==>
               r[k] == if SameKey(rows[k].event, e) then UpdateRow(rows[k], e) else rows[k]
    ensures var u := Said(rows[i].event);
            forall t :: t in Told(r) <==>
              if OneKey(t, Said(e)) then
                t == (if u.completeness.Completa? && e.completeness.Resumo? then u else Said(e))
              else t in Told(rows)
  {
    var u := Said(rows[i].event);
    assert r[i] in r;
    forall t
      ensures t in Told(r) <==>
                if OneKey(t, Said(e)) then
                  t == (if u.completeness.Completa? && e.completeness.Resumo? then u else Said(e))
                else t in Told(rows)
    {
      if t in Told(r) {
        var k :| 0 <= k < |r| && Said(r[k].event) == t;
        assert SameKey(rows[k].event, e) ==> k == i;
        assert rows[k] in rows;
      }
      if t in Told(rows) {
        var k :| 0 <= k < |rows| && Said(rows[k].event) == t;
        assert r[k] in r;
      }
    }
  }

  lemma AllSaidSplit(ops: seq<Op>)
    requires ops != []
    ensures var last := ops[|ops| - 1];
            AllSaid(ops) == AllSaid(ops[..|ops| - 1]) + if last.Happen? then {Said(last.e)} else {}
  {
    var front, last := Split(ops);
  }

  lemma StepKeys(db: Db, op: Op)
    requires KeysUnique(db.events)
    ensures KeysUnique(Step(db, op).events)
  {
    hide NfeStore.RefreshChave, EventsOf, UpsertEvent, SameKey;
    match op
    case Arrive(a) => RefreshFrame(WithCopy(db, a), a.chave);
    case Happen(e, now) =>
      UpsertKeepsKeysUnique(db.events, e, now);
      RefreshFrame(db.(events := UpsertEvent(db.events, e, now)), e.chave);
  }

  lemma StepTells(db: Db, op: Op, said: set<Saying>)
    requires KeysUnique(db.events) && Told(db.events) == Standing(said)
    requires op.Happen? ==> CopiesAgree(said + {Said(op.e)})
    ensures Told(Step(db, op).events) == Standing(if op.Happen? then said + {Said(op.e)} else said)
  {
    hide NfeStore.RefreshChave, EventsOf, UpsertEvent, Told, CopiesAgree, Standing;
    match op
    case Arrive(a) =>
      RefreshFrame(WithCopy(db, a), a.chave);
      ToldByPosition(db.events, Step(db, op).events);
    case Happen(e, now) =>
      var rows := UpsertEvent(db.events, e, now);
      UpsertTells(db.events, e, now, said);
      RefreshFrame(db.(events := rows), e.chave);
      ToldByPosition(rows, Step(db, op).events);
  }

  lemma FewerAgree(said: set<Saying>, more: set<Saying>)
    requires CopiesAgree(more) && said <= more
    ensures CopiesAgree(said)
  {
  }

  /** The rows hold what stands of all that happened, whatever the order. */
  lemma {:induction false} RunTells(companies: map<CompanyId, Cnpj>, ops: seq<Op>)
    requires CopiesAgree(AllSaid(ops))
    ensures Told(Run(companies, ops).events) == Standing(AllSaid(ops)) && KeysUnique(Run(companies, ops).events)
  {
    if ops != [] {
      hide Step, Told, Standing, CopiesAgree, KeysUnique;
      var front, last := Split(ops);
      AllSaidSplit(ops);
      FewerAgree(AllSaid(front), AllSaid(ops));
      RunTells(companies, front);
      StepKeys(Run(companies, front), last);
      StepTells(Run(companies, front), last, AllSaid(front));
    }
  }

  lemma ListedFacts(rows: seq<EventRow>, chave: Chave)
    ensures Facts(EventsOf(rows, chave)) == set s | s in Told(rows) && s.chave == chave :: s.fact
  {
    EventMembers(rows, chave);
    forall f
      ensures f in Facts(EventsOf(rows, chave)) <==> exists s :: s in Told(rows) && s.chave == chave && s.fact == f
    {
      if f in Facts(EventsOf(rows, chave)) {
        var e :| e in EventsOf(rows, chave) && FactOf(e) == f;
        var i :| 0 <= i < |rows| && rows[i].event == e && e.chave == chave;
        assert Said(rows[i].event) in Told(rows);
      }
      if s :| s in Told(rows) && s.chave == chave && s.fact == f {
        var row :| row in rows && Said(row.event) == s;
        var i :| 0 <= i < |rows| && rows[i] == row;
        assert row.event in EventsOf(rows, chave);
      }
    }
  }

  /** The events listed for a chave tell exactly what happened to it. */
  lemma RunFacts(companies: map<CompanyId, Cnpj>, ops: seq<Op>, chave: Chave)
    requires CopiesAgree(AllSaid(ops))
    ensures Facts(EventsOf(Run(companies, ops).events, chave)) == HappenedFacts(ops, chave)
  {
    RunTells(companies, ops);
    ListedFacts(Run(companies, ops).events, chave);
  }

  // ----- situação and visibility -----

  lemma CancelShows(events: seq<Event>)
    ensures HasRegisteredCancelamento(events) <==> CancelFact(Facts(events))
  {
    if HasRegisteredCancelamento(events) {
      var i :| 0 <= i < |events| && events[i].registered && events[i].kind.Cancelamento?;
      assert FactOf(events[i]) in Facts(events);
    }
    if CancelFact(Facts(events)) {
      var f :| f in Facts(events) && f.registered && f.kind.Cancelamento?;
      var e := WithFact(events, f);
      var i :| 0 <= i < |events| && events[i] == e;
    }
  }

  /** The situação of a chave after what arrived: cancelada by an event, or the worst copy. */
  function SituacaoAfter(ops: seq<Op>, chave: Chave): Situacao
    requires Copies(ops, chave) != []
  {
    if CancelFact(HappenedFacts(ops, chave)) then Cancelada else WorstSituacao(Copies(ops, chave))
  }

  predicate SaysCancelled(said: set<Saying>, chave: Chave) {
    exists s :: s in said && s.chave == chave && s.fact.registered && s.fact.kind.Cancelamento?
  }

  /** A registered cancelamento stands whichever copy of it does. */
  lemma CancelStands(ops: seq<Op>, chave: Chave)
    requires CopiesAgree(AllSaid(ops))
    ensures CancelFact(HappenedFacts(ops, chave)) <==> SaysCancelled(AllSaid(ops), chave)
  {
    var said := AllSaid(ops);
    if SaysCancelled(said, chave) {
      var t :| t in said && t.chave == chave && t.fact.registered && t.fact.kind.Cancelamento?;
      var s := SomethingStands(said, t);
      assert s.fact in HappenedFacts(ops, chave);
    }
  }

  lemma FactsGrow(ops: seq<Op>, chave: Chave)
    requires ops != [] && CopiesAgree(AllSaid(ops))
    ensures CancelFact(HappenedFacts(ops[..|ops| - 1], chave)) ==> CancelFact(HappenedFacts(ops, chave))
    ensures !(ops[|ops| - 1].Happen? && ops[|ops| - 1].e.chave == chave) ==>
              CancelFact(HappenedFacts(ops[..|ops| - 1], chave)) == CancelFact(HappenedFacts(ops, chave))
  {
    hide CancelFact, HappenedFacts, CopiesAgree;
    AllSaidSplit(ops);
    FewerAgree(AllSaid(ops[..|ops| - 1]), AllSaid(ops));
    CancelStands(ops[..|ops| - 1], chave);
    CancelStands(ops, chave);
  }

  lemma {:induction false} RunSituacao(companies: map<CompanyId, Cnpj>, ops: seq<Op>, chave: Chave)
    requires CopiesAgree(AllSaid(ops))
    ensures chave in Run(companies, ops).documents <==> Copies(ops, chave) != []
    ensures Copies(ops, chave) != [] ==> Run(companies, ops).documents[chave].situacao == SituacaoAfter(ops, chave)
  {
    if ops != [] {
      var front, last := Split(ops);
      AllSaidSplit(ops);
      FactsGrow(ops, chave);
      RunSituacao(companies, front, chave);
      StepSituacao(Run(companies, front), last, chave);
      RunFacts(companies, ops, chave);
      CancelShows(EventsOf(Run(companies, ops).events, chave));
      if last.Arrive? && last.a.chave == chave {
        assert Copies(ops, chave)[..|Copies(ops, chave)| - 1] == Copies(front, chave);
      } else {
        assert Copies(ops, chave) == Copies(front, chave);
      }
    }
  }

  /** Types 110111 and 110112 cancel: once such an event is registered, the NF-e shows as cancelada for good. */
  lemma CancelledByType(companies: map<CompanyId, Cnpj>, ops: seq<Op>, o: Op)
    requires CopiesAgree(AllSaid(ops)) && o in ops && o.Happen? && o.e.registered
    requires o.e.kind == EventTypeFromTpEvento(o.e.tpEvento) && o.e.tpEvento in {110111, 110112}
    requires Copies(ops, o.e.chave) != []
    ensures o.e.chave in Run(companies, ops).documents
    ensures Run(companies, ops).documents[o.e.chave].situacao == Cancelada
  {
    hide Run, CopiesAgree, HappenedFacts, Copies, WorstSituacao;
    assert Said(o.e) in AllSaid(ops);
    CancelStands(ops, o.e.chave);
    RunSituacao(companies, ops, o.e.chave);
  }

  /**
   And only those: while every registered event of the chave is of another type the situação is the worst of
   the copies.
   */
  lemma OtherTypesDoNotCancel(companies: map<CompanyId, Cnpj>, ops: seq<Op>, chave: Chave)
    requires CopiesAgree(AllSaid(ops)) && Copies(ops, chave) != []
    requires forall o :: o in ops && o.Happen? && o.e.chave == chave && o.e.registered ==>
               o.e.kind == EventTypeFromTpEvento(o.e.tpEvento) && o.e.tpEvento !in {110111, 110112}
    ensures chave in Run(companies, ops).documents
    ensures Run(companies, ops).documents[chave].situacao == WorstSituacao(Copies(ops, chave))
  {
    hide Run, CopiesAgree, HappenedFacts, Copies, WorstSituacao;
    CancelStands(ops, chave);
    RunSituacao(companies, ops, chave);
    forall s | s in AllSaid(ops) && s.chave == chave && s.fact.registered
      ensures !s.fact.kind.Cancelamento?
    {
      var o :| o in ops && o.Happen? && Said(o.e) == s;
    }
  }

  /** One transaction's effect on the situação of a chave, in terms of the events it leaves. */
  lemma StepSituacao(db: Db, op: Op, chave: Chave)
    ensures var r := Step(db, op);
            var cancelled := HasRegisteredCancelamento(EventsOf(r.events, chave));
            && (chave in r.documents <==> chave in db.documents || (op.Arrive? && op.a.chave == chave))
            && (op.Arrive? && op.a.chave == chave ==>
                  r.documents[chave].situacao == if cancelled then Cancelada else StoredCopy(db, op.a).situacao)
            && (op.Happen? && op.e.chave == chave && chave in db.documents ==>
                  r.documents[chave].situacao == if cancelled then Cancelada else db.documents[chave].situacao)
            && (chave in db.documents && !(op.Arrive? && op.a.chave == chave)
                && !(op.Happen? && op.e.chave == chave) ==>
                  r.documents[chave] == db.documents[chave])
  {
    match op
    case Happen(e, now) =>
      var stored := db.(events := UpsertEvent(db.events, e, now));
      RefreshFrame(stored, e.chave);
      if e.chave in db.documents {
        RefreshDerives(stored, e.chave);
      }
    case Arrive(a) =>
      RefreshFrame(WithCopy(db, a), a.chave);
      RefreshDerives(WithCopy(db, a), a.chave);
  }

  predicate Sees(db: Db, company: CompanyId, chave: Chave) {
    chave in db.documents && (company, db.documents[chave].id) in db.relations
  }

  lemma {:induction false} RunSees(companies: map<CompanyId, Cnpj>, ops: seq<Op>, company: CompanyId, chave: Chave)
    requires WellFormedOps(companies, ops)
    ensures Sees(Run(companies, ops), company, chave) <==> Arrived(ops, company, chave)
  {
    if ops != [] {
      var front, last := Split(ops);
      RunSees(companies, front, company, chave);
      RunConsistent(companies, front);
      RunConsistent(companies, ops);
      StepSees(Run(companies, front), last, company, chave);
      assert Arrived(ops, company, chave) <==>
        Arrived(front, company, chave) || (last.Arrive? && last.a.company == company && last.a.chave == chave) by {
        assert last in ops;
      }
    }
  }

  lemma StepSees(db: Db, op: Op, company: CompanyId, chave: Chave)
    requires IdsUnique(Step(db, op)) && RelationsResolve(db)
    ensures Sees(Step(db, op), company, chave)
       <==> Sees(db, company, chave) || (op.Arrive? && op.a.company == company && op.a.chave == chave)
  {
    match op
    case Happen(e, now) => RefreshFrame(db.(events := UpsertEvent(db.events, e, now)), e.chave);
    case Arrive(a) =>
      RefreshFrame(WithCopy(db, a), a.chave);
      StepIds(db, op);
      var r := Step(db, op);
      if chave in r.documents && (company, r.documents[chave].id) in db.relations {
        var c :| c in db.documents && db.documents[c].id == r.documents[chave].id;
        assert c == chave;
      }
  }

  // ----- what a company sees -----

  datatype Outcome = Outcome(situacao: Situacao, manifestacao: Manifestacao, at: Option<Time>)

  /** What a company sees of a chave: the derived columns, or nothing. */
  function View(db: Db, company: CompanyId, chave: Chave): Option<Outcome> {
    if !Sees(db, company, chave) then None
    else
      var doc := db.documents[chave];
      var rel := db.relations[(company, doc.id)];
      Some(Outcome(doc.situacao, rel.manifestacao, rel.manifestacaoAt))
  }
}
