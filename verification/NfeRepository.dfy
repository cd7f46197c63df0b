/**
 The repository of internal/store/nfe.go: its transactions update the tables statement by statement,
 and each is proved to be the function of NfeStore and to keep the store consistent.
 */
module NfeRepository {
  import opened Wrappers
  import opened NfeTypes
  import opened NfeManifestacao
  import opened NfeMerge
  import opened NfeStore
  import opened NfeStoreProofs
  import opened DfeReset

  lemma NewIdIsUnrelated(db: Db, a: Arrival)
    requires Consistent(db) && IdAvailable(db, a)
    ensures a.chave !in db.documents ==> (a.company, a.newId) !in db.relations
  {
  }

  lemma AppliedIsRefreshed(db: Db, a: Arrival)
    ensures ApplyDocument(db, a) == NfeStore.RefreshChave(WithCopy(db, a), a.chave)
    ensures StoredCopy(db, a).id == if a.chave in db.documents then db.documents[a.chave].id else a.newId
  {
  }

  class Repository {
    const companies: map<CompanyId, Cnpj>
    var documents: map<Chave, Document>
    var relations: map<(CompanyId, DocumentId), Relation>
    var events: seq<EventRow>
    var marks: map<(CompanyId, DocumentId, string), ExportMark>
    var manifestacoes: seq<ManifestacaoRecord>

    function Tables(): Db
      reads this
    {
      Db(companies, documents, relations, events, marks, manifestacoes)
    }

    constructor (companies: map<CompanyId, Cnpj>)
      ensures Tables() == Db(companies, map[], map[], [], map[], []) && Consistent(Tables())
    {
      this.companies := companies;
      documents := map[];
      relations := map[];
      events := [];
      marks := map[];
      manifestacoes := [];
    }

    /** Links the events, applies them to the situação and recomputes every company's manifestação. */
    method RefreshChave(chave: Chave)
      modifies this
      ensures Tables() == NfeStore.RefreshChave(old(Tables()), chave)
    {
      if chave !in documents {
        return;
      }
      var doc := documents[chave];
      events := LinkEvents(events, chave, doc.id);
      var listed := EventsOf(events, chave);

      var registered := RegisteredTypes(listed);
      var situacao := if Cancelamento in registered then Cancelada else doc.situacao;
      if situacao != doc.situacao {
        documents := documents[chave := doc.(situacao := situacao)];
      }
      RefreshRelations(doc.id, listed);
    }

    method RefreshRelations(id: DocumentId, listed: seq<Event>)
      modifies `relations
      ensures relations == map k | k in old(relations) ::
                if Related(old(Tables()), k, id) then RefreshRelation(old(relations)[k], listed, companies[k.0])
                else old(relations)[k]
    {
      var all := set k | k in relations && k.1 == id && k.0 in companies;
      var todo := all;
      while todo != {}
        invariant todo <= all && relations.Keys == old(relations).Keys
        invariant forall k :: k in relations ==>
          relations[k] ==
            if k in all - todo then RefreshRelation(old(relations)[k], listed, companies[k.0]) else old(relations)[k]
        decreases |todo|
      {
        var k :| k in todo;
        var manifestacao, at := ManifestacaoAndTimeFromEvents(listed, companies[k.0]);
        relations := relations[k := relations[k].(manifestacao := manifestacao, manifestacaoAt := at)];
        todo := todo - {k};
      }
    }

    /** inserted is true when the company did not see the chave before. */
    method ApplyDocumentTx(a: Arrival) returns (inserted: bool)
      requires Consistent(Tables()) && a.company in companies && IdAvailable(Tables(), a)
      modifies this
      ensures Tables() == ApplyDocument(old(Tables()), a) && Consistent(Tables())
      ensures inserted <==> !(a.chave in old(documents) && (a.company, old(documents)[a.chave].id) in old(relations))
    {
      hide Consistent, IdAvailable, NfeStore.RefreshChave, WithCopy;
      ghost var before := Tables();
      NewIdIsUnrelated(before, a);
      DocumentInvariant(before, a);
      AppliedIsRefreshed(before, a);
      inserted := StoreCopy(a);
      RefreshChave(a.chave);
    }

    /** The copy, merged into the row there is, and its relation. */
    method StoreCopy(a: Arrival) returns (inserted: bool)
      modifies this
      ensures Tables() == WithCopy(old(Tables()), a)
      ensures inserted <==> (a.company, StoredCopy(old(Tables()), a).id) !in old(relations)
    {
      var doc := a.document.(id := a.newId);
      if a.chave in documents {
        doc := MergeInto(documents[a.chave], a.document);
      }
      documents := documents[a.chave := doc];
      var k := (a.company, doc.id);
      inserted := k !in relations;
      relations := relations[
        k := if k in relations then relations[k].(role := a.role) else Relation(a.role, Nenhuma, None)];
    }

    /** inserted is true when the event was not stored before. */
    method ApplyEventTx(e: Event, now: Time) returns (inserted: bool)
      requires Consistent(Tables())
      modifies this
      ensures Tables() == ApplyEvent(old(Tables()), e, now) && Consistent(Tables())
      ensures inserted <==> !HasEvent(old(events), e)
    {
      EventInvariant(Tables(), e, now);
      inserted := !HasEvent(events, e);
      events := UpsertEvent(events, e, now);
      RefreshChave(e.chave);
    }

    /** One transaction for the outcomes of a lote. */
    method RecordManifestacoes(items: seq<ManifestacaoRecord>, now: Time)
      requires Consistent(Tables())
      modifies this
      ensures Tables() == RecordAll(old(Tables()), items, now) && Consistent(Tables())
    {
      RecordInvariant(Tables(), items, now);
      for i := 0 to |items|
        invariant Tables() == RecordAll(old(Tables()), items[..i], now)
      {
        assert items[..i + 1][..i] == items[..i];
        var item := items[i];
        manifestacoes := manifestacoes + [item];
        if !item.status.Registrada? && !item.status.JaRegistrada? {
          continue;
        }
        var event := ManifestacaoEvent(item);
        if item.status.JaRegistrada? {
          if HasEvent(events, event) {
            continue;
          }
        }
        events := UpsertEvent(events, event, now);
        RefreshChave(item.chave);
      }
      assert items[..|items|] == items;
    }

    method DeleteExportMarks(company: CompanyId) returns (n: nat)
      modifies `marks
      ensures n == |set k | k in old(marks) && k.0 == company|
      ensures marks == map k | k in old(marks) && k.0 != company :: old(marks)[k]
    {
      var removed := set k | k in marks && k.0 == company;
      marks := map k | k in marks && k.0 != company :: marks[k];
      n := |removed|;
    }

    method DeleteEvents(before: Db, company: CompanyId, ids: set<DocumentId>) returns (n: nat)
      modifies `events
      ensures n == |DeletedEvents(before, company, ids, old(events))|
      ensures events == KeptEvents(before, company, ids, old(events))
    {
      n := |DeletedEvents(before, company, ids, events)|;
      events := KeptEvents(before, company, ids, events);
    }

    method DeleteCompanyDocuments(company: CompanyId) returns (n: nat)
      modifies `relations
      ensures n == |set k | k in old(relations) && k.0 == company|
      ensures relations == map k | k in old(relations) && k.0 != company :: old(relations)[k]
    {
      var removed := set k | k in relations && k.0 == company;
      relations := map k | k in relations && k.0 != company :: relations[k];
      n := |removed|;
    }

    method DeleteDocuments(ids: set<DocumentId>) returns (n: nat)
      modifies `documents
      ensures n == |set c | c in old(documents) && old(documents)[c].id in ids|
      ensures documents == map c | c in old(documents) && old(documents)[c].id !in ids :: old(documents)[c]
    {
      var removed := set c | c in documents && documents[c].id in ids;
      documents := map c | c in documents && documents[c].id !in ids :: documents[c];
      n := |removed|;
    }

    /** A preview runs the same statements and rolls them back. */
    method ResetCompany(company: CompanyId, apply: bool) returns (counts: Counts)
      requires Consistent(Tables())
      modifies this
      ensures counts == RowsAffected(old(Tables()), company)
      ensures Tables() == if apply then Reset(old(Tables()), company) else old(Tables())
      ensures Consistent(Tables())
    {
      hide Consistent, ExclusiveIds;
      var before := Db(companies, documents, relations, events, marks, manifestacoes);
      ResetConsistent(before, company);
      var ids := ExclusiveIds(before, company);
      var exportMarks := DeleteExportMarks(company);
      var deleted := DeleteEvents(before, company, ids);
      events := UnlinkEvents(ids, events);
      var companyDocuments := DeleteCompanyDocuments(company);
      var removed := DeleteDocuments(ids);
      counts := Counts(companyDocuments, removed, deleted, exportMarks, |DfeReset.Sent(manifestacoes, company)|);
      if !apply {
        marks, events, relations, documents := before.marks, before.events, before.relations, before.documents;
      }
    }
  }

  method RegisteredTypes(events: seq<Event>) returns (registered: seq<EventType>)
    ensures Cancelamento in registered <==> HasRegisteredCancelamento(events)
  {
    registered := [];
    for i := 0 to |events|
      invariant Cancelamento in registered <==> HasRegisteredCancelamento(events[..i])
    {
      if events[i].registered {
        registered := registered + [events[i].kind];
      }
      assert events[..i + 1] == events[..i] + [events[i]];
      CancelamentoAppend(events[..i], events[i]);
    }
    assert events[..|events|] == events;
  }

  lemma CancelamentoAppend(events: seq<Event>, e: Event)
    ensures HasRegisteredCancelamento(events + [e])
       <==> HasRegisteredCancelamento(events) || (e.registered && e.kind.Cancelamento?)
  {
    var all := events + [e];
    assert all[|events|] == e;
    assert forall i :: 0 <= i < |events| ==> all[i] == events[i];
  }
}
