/**
 Sending one conclusive manifestação (internal/app/nfe_manifest.go): the plan that may block it, the
 record of SEFAZ's answer, and why no second one is ever registered.
 */
module NfeManifest {
  import opened Wrappers
  import opened NfeTypes
  import opened NfeManifestacao
  import opened NfeStore
  import opened NfeStoreProofs
  import opened NfeHistory

  datatype Tipo = TipoCiencia | TipoConfirmacao | TipoDesconhecimento | TipoNaoRealizada {
    predicate Conclusive() { !TipoCiencia? }
  }

  function TpEvento(tipo: Tipo): nat {
    match tipo
    case TipoCiencia => 210210
    case TipoConfirmacao => 210200
    case TipoDesconhecimento => 210220
    case TipoNaoRealizada => 210240
  }

  /** What SEFAZ says about one evento; no answer is a failed request. */
  datatype Answer = NoAnswer | Answered(cStat: int, dhRegEvento: Option<Moment>)

  function StatusOf(answer: Answer): Status {
    match answer
    case NoAnswer => Erro
    case Answered(cStat, _) =>
      if cStat == 135 || cStat == 136 then Registrada
      else if cStat == 573 then JaRegistrada
      else Rejeitada
  }

  datatype Block = NotFound | NotDestinatario | NotAutorizada | AlreadyConclusive | AlreadyManifested

  // ----- the plans -----

  function ManifestacaoBlock(rel: Relation, doc: Document): Option<Block> {
    if rel.role != "destinatario" then Some(NotDestinatario)
    else if doc.situacao != Autorizada then Some(NotAutorizada)
    else None
  }

  /** Why a manifestação of this type cannot be sent now, or None. */
  function PlanBlock(db: Db, company: CompanyId, chave: Chave, tipo: Tipo): Option<Block> {
    if !Sees(db, company, chave) then Some(NotFound)
    else
      var doc := db.documents[chave];
      var rel := db.relations[(company, doc.id)];
      var block := ManifestacaoBlock(rel, doc);
      if block.Some? then block
      else if tipo.Conclusive() then (if rel.manifestacao.Conclusive() then Some(AlreadyConclusive) else None)
      else if rel.manifestacao != Nenhuma then Some(AlreadyManifested)
      else None
  }

  function Record(db: Db, company: CompanyId, chave: Chave, tipo: Tipo, answer: Answer, now: Moment): ManifestacaoRecord
    requires company in db.companies
  {
    ManifestacaoRecord(company, db.companies[company], chave, TpEvento(tipo), 1, StatusOf(answer), now,
                       if answer.Answered? then answer.dhRegEvento else None, "")
  }

  // ----- histories of arrivals and of manifestações -----

  datatype Act =
    | Store(op: Op)
    | Manifest(company: CompanyId, chave: Chave, tipo: Tipo, answer: Answer, now: Moment, stored: bool)

  function Perform(db: Db, act: Act): Db {
    match act
    case Store(op) => Step(db, op)
    case Manifest(company, chave, tipo, answer, now, stored) =>
      if company in db.companies && PlanBlock(db, company, chave, tipo).None? && stored then
        RecordOne(db, Record(db, company, chave, tipo, answer, now), now.at)
      else db
  }

  function PerformAll(db: Db, acts: seq<Act>): Db {
    if acts == [] then db else Perform(PerformAll(db, acts[..|acts| - 1]), acts[|acts| - 1])
  }

  /** The state in which the i-th act is performed. */
  function Before(db: Db, acts: seq<Act>, i: nat): Db
    requires i <= |acts|
  {
    PerformAll(db, acts[..i])
  }

  /** The evento reaches SEFAZ: the plan does not block it. */
  predicate Sends(db: Db, act: Act) {
    act.Manifest? && act.company in db.companies && PlanBlock(db, act.company, act.chave, act.tipo).None?
  }

  function EventsWritten(db: Db, act: Act): set<Event> {
    match act
    case Store(Happen(e, _)) => {e}
    case Store(Arrive(_)) => {}
    case Manifest(company, chave, tipo, answer, now, stored) =>
      if company in db.companies && stored then {ManifestacaoEvent(Record(db, company, chave, tipo, answer, now))}
      else {}
  }

  /** Copies of one event name the same author, type and acceptance. */
  predicate SameSubject(a: Event, b: Event) {
    a.kind == b.kind && a.author == b.author && a.registered == b.registered
  }

  /** What the source relies on: registered companies, fresh identifiers, agreeing copies. */
  predicate Legal(db: Db, act: Act) {
    && (act.Store? && act.op.Arrive? ==> act.op.a.company in db.companies && IdAvailable(db, act.op.a))
    && (forall e, i :: e in EventsWritten(db, act) && 0 <= i < |db.events| && SameKey(db.events[i].event, e) ==>
          SameSubject(db.events[i].event, e))
  }

  predicate LegalHistory(db: Db, acts: seq<Act>) {
    forall i :: 0 <= i < |acts| ==> Legal(Before(db, acts, i), acts[i])
  }

  // ----- what every act keeps -----

  /** The event table holds a conclusive event that counts for the company. */
  predicate HasConclusive(db: Db, company: CompanyId, chave: Chave) {
    company in db.companies && exists i :: 0 <= i < |db.events| && db.events[i].event.chave == chave
                                           && CountsConclusive(db.events[i].event, db.companies[company])
  }

  lemma PerformInvariant(db: Db, act: Act)
    requires Consistent(db) && Legal(db, act)
    ensures Consistent(Perform(db, act)) && Perform(db, act).companies == db.companies
  {
    match act
    case Store(op) => StepConsistent(db, op);
    case Manifest(company, chave, tipo, answer, now, stored) =>
      if Sends(db, act) && stored {
        var item := Record(db, company, chave, tipo, answer, now);
        RecordOneInvariant(db, item, now.at);
        var logged := db.(manifestacoes := db.manifestacoes + [item]);
        RefreshFrame(logged.(events := UpsertEvent(logged.events, ManifestacaoEvent(item), now.at)), chave);
      }
  }

  /** Seeing a document, and a conclusive event in the table, are never undone. */
  lemma PerformKeeps(db: Db, act: Act, company: CompanyId, chave: Chave)
    requires Consistent(db) && Legal(db, act)
    ensures Sees(db, company, chave) ==> Sees(Perform(db, act), company, chave)
    ensures HasConclusive(db, company, chave) ==> HasConclusive(Perform(db, act), company, chave)
  {
    hide NfeStore.RefreshChave, UpsertEvent, EventsOf, Consistent, HasConclusive, Sees, PlanBlock;
    PerformInvariant(db, act);
    KeepsNeeds(db, act);
    match act
    case Store(Happen(e, now)) =>
      assert e in EventsWritten(db, act);
      EventKeeps(db, e, now, company, chave);
    case Store(Arrive(a)) =>
      ArrivalKeeps(db, act.op, company, chave);
    case Manifest(c, ch, tipo, answer, now, stored) =>
      if Sends(db, act) && stored {
        var item := Record(db, c, ch, tipo, answer, now);
        assert ManifestacaoEvent(item) in EventsWritten(db, act);
        RecordKeeps(db, item, now.at, company, chave);
      }
  }

  lemma RecordKeeps(db: Db, item: ManifestacaoRecord, now: Time, company: CompanyId, chave: Chave)
    requires KeysUnique(db.events)
    requires forall i :: 0 <= i < |db.events| && SameKey(db.events[i].event, ManifestacaoEvent(item)) ==>
               SameSubject(db.events[i].event, ManifestacaoEvent(item))
    ensures Sees(db, company, chave) ==> Sees(RecordOne(db, item, now), company, chave)
    ensures HasConclusive(db, company, chave) ==> HasConclusive(RecordOne(db, item, now), company, chave)
  {
    hide ApplyEvent, CountsConclusive, ManifestacaoEvent;
    var logged := db.(manifestacoes := db.manifestacoes + [item]);
    EventKeeps(logged, ManifestacaoEvent(item), now, company, chave);
  }

  lemma KeepsNeeds(db: Db, act: Act)
    requires Consistent(db)
    ensures KeysUnique(db.events)
  {
  }

  lemma ArrivalKeeps(db: Db, op: Op, company: CompanyId, chave: Chave)
    requires op.Arrive?
    ensures Sees(db, company, chave) ==> Sees(Step(db, op), company, chave)
    ensures HasConclusive(db, company, chave) ==> HasConclusive(Step(db, op), company, chave)
  {
    hide NfeStore.RefreshChave, EventsOf, CountsConclusive;
    RefreshFrame(WithCopy(db, op.a), op.a.chave);
    StepIds(db, op);
    if HasConclusive(db, company, chave) {
      var i :| 0 <= i < |db.events| && db.events[i].event.chave == chave
               && CountsConclusive(db.events[i].event, db.companies[company]);
      assert Step(db, op).events[i].event == db.events[i].event;
    }
  }

  lemma EventKeeps(db: Db, e: Event, now: Time, company: CompanyId, chave: Chave)
    requires KeysUnique(db.events)
    requires forall i :: 0 <= i < |db.events| && SameKey(db.events[i].event, e) ==> SameSubject(db.events[i].event, e)
    ensures Sees(db, company, chave) ==> Sees(ApplyEvent(db, e, now), company, chave)
    ensures HasConclusive(db, company, chave) ==> HasConclusive(ApplyEvent(db, e, now), company, chave)
  {
    hide NfeStore.RefreshChave, UpsertEvent, EventsOf;
    var stored := db.(events := UpsertEvent(db.events, e, now));
    UpsertRows(db.events, e, now);
    RefreshFrame(stored, e.chave);
    if HasConclusive(db, company, chave) {
      var i :| 0 <= i < |db.events| && db.events[i].event.chave == chave
               && CountsConclusive(db.events[i].event, db.companies[company]);
      assert ApplyEvent(db, e, now).events[i].event == stored.events[i].event;
      assert CountsConclusive(stored.events[i].event, db.companies[company]);
    }
  }

  /** A conclusive event in the table shows in the company's manifestação, and blocks the plan. */
  lemma ConclusiveBlocks(db: Db, company: CompanyId, chave: Chave, tipo: Tipo)
    requires Consistent(db) && Sees(db, company, chave) && HasConclusive(db, company, chave) && tipo.Conclusive()
    ensures db.relations[(company, db.documents[chave].id)].manifestacao.Conclusive()
    ensures PlanBlock(db, company, chave, tipo).Some?
  {
    hide Consistent, EventsOf, Deciding, CountsConclusive, ManifestacaoBlock;
    var cnpj, events := db.companies[company], EventsOf(db.events, chave);
    EventMembers(db.events, chave);
    var i :| 0 <= i < |db.events| && db.events[i].event.chave == chave && CountsConclusive(db.events[i].event, cnpj);
    assert db.events[i].event in events;
    DecidingIsLatest(events, cnpj);
    DerivedShows(db, company, chave);
  }

  lemma DerivedShows(db: Db, company: CompanyId, chave: Chave)
    requires Consistent(db) && Sees(db, company, chave) && company in db.companies
    ensures var rel := db.relations[(company, db.documents[chave].id)];
            (rel.manifestacao, rel.manifestacaoAt) == ManifestacaoOf(EventsOf(db.events, chave), db.companies[company])
  {
    hide EventsOf, ManifestacaoOf, KeysUnique, LinksExact, RelationsResolve, DocumentsSeen, SituacoesDerived, IdsUnique;
  }

  /** A registered ciência of the company itself. */
  predicate HasCiencia(db: Db, company: CompanyId, chave: Chave) {
    company in db.companies && exists i :: 0 <= i < |db.events| && db.events[i].event.chave == chave
                                           && CountsCiencia(db.events[i].event, db.companies[company])
  }

  lemma StoredStates(db: Db, company: CompanyId, chave: Chave)
    requires Consistent(db) && Sees(db, company, chave) && company in db.companies
    ensures var m := db.relations[(company, db.documents[chave].id)].manifestacao;
            && (m.Conclusive() <==> HasConclusive(db, company, chave))
            && (m == Nenhuma <==> !HasConclusive(db, company, chave) && !HasCiencia(db, company, chave))
  {
    hide Consistent, EventsOf, Deciding, EarliestCiencia, CountsConclusive, CountsCiencia;
    var cnpj, events := db.companies[company], EventsOf(db.events, chave);
    EventMembers(db.events, chave);
    DerivedShows(db, company, chave);
    DecidingIsLatest(events, cnpj);
    EarliestIsEarliest(events, cnpj);
    if i :| 0 <= i < |db.events| && db.events[i].event.chave == chave && CountsConclusive(db.events[i].event, cnpj) {
      assert db.events[i].event in events;
    }
    if i :| 0 <= i < |db.events| && db.events[i].event.chave == chave && CountsCiencia(db.events[i].event, cnpj) {
      assert db.events[i].event in events;
    }
    forall e | e in events
      ensures CountsConclusive(e, cnpj) ==> HasConclusive(db, company, chave)
      ensures CountsCiencia(e, cnpj) ==> HasCiencia(db, company, chave)
    {
      var i :| 0 <= i < |db.events| && db.events[i].event == e && e.chave == chave;
      assert db.events[i].event.chave == chave;
    }
  }

  /**
   A manifestação can be sent exactly when the company sees the NF-e as destinatário, the NF-e is autorizada
   and the event table holds no conclusive event of the company and, for a ciência, no ciência either.
   */
  lemma PlanOpenExactly(db: Db, company: CompanyId, chave: Chave, tipo: Tipo)
    requires Consistent(db) && company in db.companies
    ensures PlanBlock(db, company, chave, tipo).None? <==>
              && Sees(db, company, chave)
              && db.relations[(company, db.documents[chave].id)].role == "destinatario"
              && db.documents[chave].situacao.Autorizada?
              && !HasConclusive(db, company, chave)
              && (tipo.TipoCiencia? ==> !HasCiencia(db, company, chave))
    // Otherwise the first reason that applies is given.
    ensures PlanBlock(db, company, chave, tipo) == Some(NotFound) <==> !Sees(db, company, chave)
    ensures PlanBlock(db, company, chave, tipo) == Some(NotDestinatario) <==>
              && Sees(db, company, chave)
              && db.relations[(company, db.documents[chave].id)].role != "destinatario"
    ensures PlanBlock(db, company, chave, tipo) == Some(AlreadyConclusive) ==>
              !tipo.TipoCiencia? && HasConclusive(db, company, chave)
    ensures PlanBlock(db, company, chave, tipo) == Some(AlreadyManifested) ==>
              tipo.TipoCiencia? && (HasConclusive(db, company, chave) || HasCiencia(db, company, chave))
    ensures PlanBlock(db, company, chave, tipo) == Some(NotAutorizada) ==> !db.documents[chave].situacao.Autorizada?
  {
    hide Consistent, HasConclusive, HasCiencia;
    if Sees(db, company, chave) {
      StoredStates(db, company, chave);
    }
  }

  /** An event that agrees with the stored copies and counts as conclusive is in the table afterwards. */
  lemma AppliedCounts(db: Db, e: Event, now: Time, company: CompanyId)
    requires KeysUnique(db.events) && company in db.companies && CountsConclusive(e, db.companies[company])
    requires forall i :: 0 <= i < |db.events| && SameKey(db.events[i].event, e) ==> SameSubject(db.events[i].event, e)
    ensures HasConclusive(ApplyEvent(db, e, now), company, e.chave)
  {
    hide NfeStore.RefreshChave, UpsertEvent, EventsOf;
    var stored := db.(events := UpsertEvent(db.events, e, now));
    UpsertRows(db.events, e, now);
    RefreshFrame(stored, e.chave);
    var i := |db.events|;
    if HasEvent(db.events, e) {
      i :| 0 <= i < |db.events| && SameKey(db.events[i].event, e);
    }
    assert stored.events[i].event.chave == e.chave && CountsConclusive(stored.events[i].event, db.companies[company]);
    assert ApplyEvent(db, e, now).events[i].event == stored.events[i].event;
  }

  /** An evento SEFAZ registered is in the table from then on. */
  lemma RegisteredIsStored(db: Db, act: Act)
    requires Consistent(db) && Legal(db, act) && Sends(db, act) && act.tipo.Conclusive()
    requires act.answer.Answered? && act.answer.cStat in {135, 136} && db.companies[act.company] != ""
    ensures act.stored ==> HasConclusive(Perform(db, act), act.company, act.chave)
    ensures !act.stored ==> Perform(db, act) == db
  {
    hide Consistent, PlanBlock, ApplyEvent, HasConclusive;
    KeepsNeeds(db, act);
    var item := Record(db, act.company, act.chave, act.tipo, act.answer, act.now);
    assert act.stored ==> ManifestacaoEvent(item) in EventsWritten(db, act);
    if act.stored {
      AppliedCounts(db.(manifestacoes := db.manifestacoes + [item]), ManifestacaoEvent(item), act.now.at, act.company);
    }
  }

  /** After a registered conclusive answer a conclusive plan stays open exactly when it could not be recorded. */
  lemma OpenExactlyWhenUnrecorded(db: Db, act: Act, tipo: Tipo)
    requires Consistent(db) && Legal(db, act) && Sends(db, act) && act.tipo.Conclusive() && tipo.Conclusive()
    requires act.answer.Answered? && act.answer.cStat in {135, 136} && db.companies[act.company] != ""
    ensures PlanBlock(Perform(db, act), act.company, act.chave, tipo).None? <==> !act.stored
  {
    hide Consistent, Legal, HasConclusive, Perform;
    RegisteredIsStored(db, act);
    if act.stored {
      PerformInvariant(db, act);
      PerformKeeps(db, act, act.company, act.chave);
      ConclusiveBlocks(Perform(db, act), act.company, act.chave, tipo);
    }
  }

  lemma BeforeNext(db: Db, acts: seq<Act>, i: nat)
    requires i < |acts| && LegalHistory(db, acts)
    ensures Before(db, acts, i + 1) == Perform(Before(db, acts, i), acts[i]) && Legal(Before(db, acts, i), acts[i])
  {
    assert acts[..i + 1][..i] == acts[..i];
  }

  lemma {:induction false} HistoryInvariant(db: Db, acts: seq<Act>, i: nat)
    requires Consistent(db) && LegalHistory(db, acts) && i <= |acts|
    ensures Consistent(Before(db, acts, i)) && Before(db, acts, i).companies == db.companies
  {
    if i > 0 {
      HistoryInvariant(db, acts, i - 1);
      BeforeNext(db, acts, i - 1);
      PerformInvariant(Before(db, acts, i - 1), acts[i - 1]);
    }
  }

  lemma {:induction false} HistoryKeeps(db: Db, acts: seq<Act>, i: nat, j: nat, company: CompanyId, chave: Chave)
    requires Consistent(db) && LegalHistory(db, acts) && i <= j <= |acts|
    requires Sees(Before(db, acts, i), company, chave) && HasConclusive(Before(db, acts, i), company, chave)
    ensures Sees(Before(db, acts, j), company, chave) && HasConclusive(Before(db, acts, j), company, chave)
    decreases j - i
  {
    hide *;
    if i < j {
      HistoryInvariant(db, acts, i);
      BeforeNext(db, acts, i);
      PerformKeeps(Before(db, acts, i), acts[i], company, chave);
      HistoryKeeps(db, acts, i + 1, j, company, chave);
    }
  }

  lemma Sending(db: Db, act: Act)
    requires act.Manifest?
    ensures Sends(db, act) ==> act.company in db.companies && Sees(db, act.company, act.chave)
    ensures PlanBlock(db, act.company, act.chave, act.tipo).Some? ==> !Sends(db, act)
    ensures !Sends(db, act) ==> Perform(db, act) == db
  {
  }

  /**
   Once a conclusive manifestação of a company on an NF-e is answered as registered, and the answer
   recorded, every later conclusive plan for the pair is blocked: nothing is sent, so at most one recorded
   one is ever registered.
   */
  lemma AtMostOneConclusiveRegistered(db: Db, acts: seq<Act>, i: nat, j: nat)
    requires Consistent(db) && LegalHistory(db, acts) && i < j < |acts|
    requires acts[i].Manifest? && acts[j].Manifest?
    requires acts[i].company == acts[j].company && acts[i].chave == acts[j].chave
    requires acts[i].tipo.Conclusive() && acts[j].tipo.Conclusive()
    requires acts[i].company in db.companies && db.companies[acts[i].company] != ""
    requires Sends(Before(db, acts, i), acts[i]) && acts[i].answer.Answered? && acts[i].answer.cStat in {135, 136}
    ensures acts[i].stored ==> PlanBlock(Before(db, acts, j), acts[j].company, acts[j].chave, acts[j].tipo).Some?
    ensures acts[i].stored ==>
              !Sends(Before(db, acts, j), acts[j]) && Before(db, acts, j + 1) == Before(db, acts, j)
  {
    hide *;
    var company, chave := acts[i].company, acts[i].chave;
    HistoryInvariant(db, acts, i);
    HistoryInvariant(db, acts, j);
    BeforeNext(db, acts, i);
    BeforeNext(db, acts, j);
    Sending(Before(db, acts, i), acts[i]);
    RegisteredIsStored(Before(db, acts, i), acts[i]);
    PerformKeeps(Before(db, acts, i), acts[i], company, chave);
    if acts[i].stored {
      HistoryKeeps(db, acts, i + 1, j, company, chave);
      ConclusiveBlocks(Before(db, acts, j), company, chave, acts[j].tipo);
      Sending(Before(db, acts, j), acts[j]);
    }
  }
}
