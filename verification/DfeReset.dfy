/**
 Removing one company's view of a source (internal/store/dfe.go): five statements over tables that
 companies share, and what they leave to the others.
 */
module DfeReset {
  import opened NfeTypes
  import opened NfeManifestacao
  import opened NfeStore
  import opened NfeStoreProofs
  import opened NfeHistory

  // ----- the statements -----

  /** The documents only this company sees. */
  function ExclusiveIds(db: Db, company: CompanyId): set<DocumentId> {
    set k | k in db.relations && k.0 == company
            && !(exists other :: other in db.relations && other.1 == k.1 && other.0 != company) :: k.1
  }

  function OtherCnpjs(db: Db, company: CompanyId): set<Cnpj> {
    set c | c in db.companies && c != company :: db.companies[c]
  }

  predicate DeletesEvent(db: Db, company: CompanyId, ids: set<DocumentId>, row: EventRow) {
    && row.event.author !in OtherCnpjs(db, company)
    && (|| (row.event.chave in db.documents && db.documents[row.event.chave].id in ids)
        || (company in db.companies && row.event.author == db.companies[company] && row.event.chave !in db.documents))
  }

  function KeptEvents(db: Db, company: CompanyId, ids: set<DocumentId>, rows: seq<EventRow>): seq<EventRow> {
    if rows == [] then []
    else (if DeletesEvent(db, company, ids, rows[0]) then [] else [rows[0]]) + KeptEvents(db, company, ids, rows[1..])
  }

  function UnlinkEvents(ids: set<DocumentId>, rows: seq<EventRow>): (r: seq<EventRow>)
    ensures |r| == |rows|
    ensures forall i :: 0 <= i < |rows| ==>
              r[i] == if rows[i].documentId.Some? && rows[i].documentId.value in ids then Unlinked(rows[i]) else rows[i]
  {
    seq(|rows|, i requires 0 <= i < |rows| =>
      if rows[i].documentId.Some? && rows[i].documentId.value in ids then Unlinked(rows[i]) else rows[i])
  }

  function Reset(db: Db, company: CompanyId): Db {
    var ids := ExclusiveIds(db, company);
    db.(marks := map k | k in db.marks && k.0 != company :: db.marks[k],
        events := UnlinkEvents(ids, KeptEvents(db, company, ids, db.events)),
        relations := map k | k in db.relations && k.0 != company :: db.relations[k],
        documents := map c | c in db.documents && db.documents[c].id !in ids :: db.documents[c])
  }

  datatype Counts = Counts(companyDocuments: nat, documents: nat, events: nat, exportMarks: nat, manifestacoesKept: nat)

  /** The rows the statements of a reset affect. */
  function RowsAffected(db: Db, company: CompanyId): Counts {
    var ids := ExclusiveIds(db, company);
    Counts(|set k | k in db.relations && k.0 == company|,
           |set c | c in db.documents && db.documents[c].id in ids|,
           |DeletedEvents(db, company, ids, db.events)|,
           |set k | k in db.marks && k.0 == company|,
           |Sent(db.manifestacoes, company)|)
  }

  function DeletedEvents(db: Db, company: CompanyId, ids: set<DocumentId>, rows: seq<EventRow>): seq<EventRow> {
    if rows == [] then []
    else
      (if DeletesEvent(db, company, ids, rows[0]) then [rows[0]] else [])
      + DeletedEvents(db, company, ids, rows[1..])
  }

  function Sent(records: seq<ManifestacaoRecord>, company: CompanyId): seq<ManifestacaoRecord> {
    if records == [] then []
    else (if records[0].company == company then [records[0]] else []) + Sent(records[1..], company)
  }

  // ----- what survives -----

  lemma {:induction false} KeptAre(db: Db, company: CompanyId, ids: set<DocumentId>, rows: seq<EventRow>)
    ensures forall row :: row in KeptEvents(db, company, ids, rows) <==>
              row in rows && !DeletesEvent(db, company, ids, row)
    ensures |KeptEvents(db, company, ids, rows)| + |DeletedEvents(db, company, ids, rows)| == |rows|
  {
    if rows != [] {
      KeptAre(db, company, ids, rows[1..]);
      assert rows == [rows[0]] + rows[1..];
    }
  }

  lemma {:induction false} KeptKeysUnique(db: Db, company: CompanyId, ids: set<DocumentId>, rows: seq<EventRow>)
    requires KeysUnique(rows)
    ensures KeysUnique(KeptEvents(db, company, ids, rows))
  {
    if rows != [] {
      var rest := KeptEvents(db, company, ids, rows[1..]);
      assert KeysUnique(rows[1..]);
      KeptKeysUnique(db, company, ids, rows[1..]);
      KeptAre(db, company, ids, rows[1..]);
      forall j | 0 <= j < |rest|
        ensures !SameKey(rows[0].event, rest[j].event)
      {
        assert rest[j] in rows[1..];
        var i :| 0 <= i < |rows[1..]| && rows[1..][i] == rest[j];
        assert rows[i + 1] == rest[j];
      }
    }
  }

  lemma {:induction false} KeptSelection(db: Db, company: CompanyId, ids: set<DocumentId>, rows: seq<EventRow>,
                                         chave: Chave)
    requires chave in db.documents && db.documents[chave].id !in ids
    ensures Selected(KeptEvents(db, company, ids, rows), chave) == Selected(rows, chave)
  {
    if rows != [] {
      KeptSelection(db, company, ids, rows[1..], chave);
      var rest := KeptEvents(db, company, ids, rows[1..]);
      if DeletesEvent(db, company, ids, rows[0]) {
        assert KeptEvents(db, company, ids, rows) == rest;
        assert Selected(rows, chave) == Selected(rows[1..], chave);
      } else {
        assert KeptEvents(db, company, ids, rows) == [rows[0]] + rest;
        assert ([rows[0]] + rest)[1..] == rest;
      }
    }
  }

  lemma {:induction false} UnlinkKeepsSelection(ids: set<DocumentId>, rows: seq<EventRow>, chave: Chave)
    ensures Selected(UnlinkEvents(ids, rows), chave) == Selected(rows, chave)
  {
    if rows != [] {
      UnlinkKeepsSelection(ids, rows[1..], chave);
      assert UnlinkEvents(ids, rows)[1..] == UnlinkEvents(ids, rows[1..]);
    }
  }

  /** The events of a surviving document are all still there, in the same order. */
  lemma SurvivorsKeepEvents(db: Db, company: CompanyId, chave: Chave)
    requires chave in Reset(db, company).documents
    ensures EventsOf(Reset(db, company).events, chave) == EventsOf(db.events, chave)
  {
    var ids := ExclusiveIds(db, company);
    KeptSelection(db, company, ids, db.events, chave);
    UnlinkKeepsSelection(ids, KeptEvents(db, company, ids, db.events), chave);
    SameSelection(Reset(db, company).events, db.events, chave);
  }

  /** A document another company sees survives. */
  lemma SharedDocumentSurvives(db: Db, company: CompanyId, chave: Chave, k: (CompanyId, DocumentId))
    requires chave in db.documents && k in db.relations && k.1 == db.documents[chave].id && k.0 != company
    ensures chave in Reset(db, company).documents
  {
  }

  lemma ResetKeys(db: Db, company: CompanyId)
    requires KeysUnique(db.events)
    ensures KeysUnique(Reset(db, company).events)
  {
    hide ExclusiveIds, KeptEvents;
    var ids := ExclusiveIds(db, company);
    KeptKeysUnique(db, company, ids, db.events);
    SameEventsSameKeys(KeptEvents(db, company, ids, db.events), Reset(db, company).events);
  }

  lemma SameEventsSameKeys(a: seq<EventRow>, b: seq<EventRow>)
    requires KeysUnique(a) && |a| == |b| && forall i :: 0 <= i < |a| ==> a[i].event == b[i].event
    ensures KeysUnique(b)
  {
    hide SameKey;
  }

  lemma ResetLinks(db: Db, company: CompanyId)
    requires LinksExact(db)
    ensures LinksExact(Reset(db, company))
  {
    hide KeptEvents, ExclusiveIds;
    var ids, r := ExclusiveIds(db, company), Reset(db, company);
    var kept := KeptEvents(db, company, ids, db.events);
    KeptAre(db, company, ids, db.events);
    forall i | 0 <= i < |r.events|
      ensures r.events[i].documentId == LinkOf(r, r.events[i].event.chave)
    {
      assert kept[i] in kept;
      var j :| 0 <= j < |db.events| && db.events[j] == kept[i];
      assert kept[i].documentId == LinkOf(db, kept[i].event.chave);
    }
  }

  lemma ResetRelations(db: Db, company: CompanyId)
    requires RelationsResolve(db)
    ensures RelationsResolve(Reset(db, company))
  {
    hide KeptEvents, UnlinkEvents, ExclusiveIds;
    var r := Reset(db, company);
    forall k | k in r.relations
      ensures HasDocument(r.documents, k.1)
    {
      assert HasDocument(db.documents, k.1);
      var c :| c in db.documents && db.documents[c].id == k.1;
      SharedDocumentSurvives(db, company, c, k);
      assert r.documents[c].id == k.1;
    }
  }

  lemma ResetDocuments(db: Db, company: CompanyId)
    requires DocumentsSeen(db)
    ensures DocumentsSeen(Reset(db, company))
  {
    hide KeptEvents, UnlinkEvents;
    var r := Reset(db, company);
    forall c | c in r.documents
      ensures Seen(r.relations, r.documents[c].id)
    {
      var k :| k in db.relations && k.1 == db.documents[c].id;
      if k.0 == company {
        var other :| other in db.relations && other.1 == k.1 && other.0 != company;
        assert other in r.relations;
      } else {
        assert k in r.relations;
      }
    }
  }

  /**
   After a reset the store is consistent: no document without a company, no event linked to a
   missing document, and every derived state equal to its recomputation.
   */
  lemma ResetConsistent(db: Db, company: CompanyId)
    requires Consistent(db)
    ensures Consistent(Reset(db, company))
  {
    hide KeptEvents, UnlinkEvents, ExclusiveIds, EventsOf, ManifestacaoOf, HasRegisteredCancelamento;
    var r := Reset(db, company);
    ResetKeys(db, company);
    ResetLinks(db, company);
    ResetRelations(db, company);
    ResetDocuments(db, company);
    forall c | c in r.documents
      ensures EventsOf(r.events, c) == EventsOf(db.events, c)
    {
      SurvivorsKeepEvents(db, company, c);
    }
  }

  /** What another company sees, exports and derives is untouched, document by document. */
  lemma ResetIsolatesCompanies(db: Db, company: CompanyId, other: CompanyId, chave: Chave)
    requires Consistent(db) && other != company
    ensures var r := Reset(db, company);
            && View(r, other, chave) == View(db, other, chave)
            && (Sees(db, other, chave) ==>
                  && r.documents[chave] == db.documents[chave]
                  && EventsOf(r.events, chave) == EventsOf(db.events, chave))
            && (forall id: DocumentId :: (other, id) in r.relations <==> (other, id) in db.relations)
            && (forall id: DocumentId :: (other, id) in db.relations ==>
                 r.relations[(other, id)] == db.relations[(other, id)])
            && (forall k :: k in db.marks && k.0 == other ==> k in r.marks && r.marks[k] == db.marks[k])
  {
    if Sees(db, other, chave) {
      SharedDocumentSurvives(db, company, chave, (other, db.documents[chave].id));
      SurvivorsKeepEvents(db, company, chave);
    }
  }

  /** The company itself is left with nothing. */
  lemma ResetForgetsCompany(db: Db, company: CompanyId)
    requires Consistent(db) && company in db.companies
    requires forall c :: c in db.companies && c != company ==> db.companies[c] != db.companies[company]
    ensures var r := Reset(db, company);
            && (forall k :: k in r.relations ==> k.0 != company)
            && (forall k :: k in r.marks ==> k.0 != company)
            && (forall row :: row in r.events && row.event.author == db.companies[company] ==>
                 row.event.chave in r.documents)
  {
    var ids, r := ExclusiveIds(db, company), Reset(db, company);
    var kept := KeptEvents(db, company, ids, db.events);
    KeptAre(db, company, ids, db.events);
    forall row | row in r.events && row.event.author == db.companies[company]
      ensures row.event.chave in r.documents
    {
      var i :| 0 <= i < |r.events| && r.events[i] == row;
      assert kept[i] in kept && kept[i].event == row.event;
    }
  }

  /** A reset keeps the event: its row is still there, but for the link. */
  predicate Keeps(db: Db, company: CompanyId, row: EventRow) {
    exists i :: 0 <= i < |Reset(db, company).events| && Unlinked(Reset(db, company).events[i]) == Unlinked(row)
  }

  lemma KeptUnlessDeleted(db: Db, company: CompanyId, row: EventRow)
    requires row in db.events
    ensures Keeps(db, company, row) <==> !DeletesEvent(db, company, ExclusiveIds(db, company), row)
  {
    hide DeletesEvent, KeptEvents, ExclusiveIds;
    var ids, reset := ExclusiveIds(db, company), Reset(db, company);
    var kept := KeptEvents(db, company, ids, db.events);
    KeptAre(db, company, ids, db.events);
    if row in kept {
      var i :| 0 <= i < |kept| && kept[i] == row;
      assert Unlinked(reset.events[i]) == Unlinked(row);
    }
    if Keeps(db, company, row) {
      var i :| 0 <= i < |reset.events| && Unlinked(reset.events[i]) == Unlinked(row);
      assert kept[i] in kept && kept[i].event == row.event;
      SameEventSameFate(db, company, ids, kept[i], row);
    }
  }

  lemma SameEventSameFate(db: Db, company: CompanyId, ids: set<DocumentId>, a: EventRow, b: EventRow)
    requires a.event == b.event
    ensures DeletesEvent(db, company, ids, a) == DeletesEvent(db, company, ids, b)
  {
  }

  /** Another registered company wrote it. */
  predicate AnothersEvent(db: Db, company: CompanyId, e: Event) {
    exists other :: other in db.companies && other != company && db.companies[other] == e.author
  }

  /**
   An event is kept exactly when another registered company authored it, or its document survives,
   or it has no document and the company did not author it.
   */
  lemma ResetKeepsEvent(db: Db, company: CompanyId, row: EventRow)
    requires row in db.events
    ensures Keeps(db, company, row)
       <==> || AnothersEvent(db, company, row.event)
            || row.event.chave in Reset(db, company).documents
            || (row.event.chave !in db.documents
                && !(company in db.companies && row.event.author == db.companies[company]))
  {
    hide Keeps, KeptEvents, ExclusiveIds;
    KeptUnlessDeleted(db, company, row);
  }

  /** A document is kept exactly when another company sees it. */
  lemma ResetKeepsDocument(db: Db, company: CompanyId, chave: Chave)
    requires Consistent(db)
    ensures chave in Reset(db, company).documents <==> exists other :: other != company && SeenBy(db, other, chave)
    ensures chave in Reset(db, company).documents ==>
              Reset(db, company).documents[chave] == db.documents[chave]
  {
    hide KeptEvents, UnlinkEvents;
    if chave in Reset(db, company).documents {
      assert Seen(db.relations, db.documents[chave].id);
      var k :| k in db.relations && k.1 == db.documents[chave].id;
      if k.0 == company {
        var o :| o in db.relations && o.1 == k.1 && o.0 != company;
        assert SeenBy(db, o.0, chave);
      } else {
        assert SeenBy(db, k.0, chave);
      }
    }
    if other :| other != company && SeenBy(db, other, chave) {
      SharedDocumentSurvives(db, company, chave, (other, db.documents[chave].id));
    }
  }

  /** Sees, with the company as the variable of a quantifier. */
  predicate SeenBy(db: Db, other: CompanyId, chave: Chave) {
    Sees(db, other, chave)
  }

  // ----- what the others wrote -----

  function OwnRows(rows: seq<EventRow>, cnpj: Cnpj): seq<EventRow> {
    if rows == [] then []
    else (if rows[0].event.author == cnpj then [rows[0]] else []) + OwnRows(rows[1..], cnpj)
  }

  function Own(events: seq<Event>, cnpj: Cnpj): seq<Event> {
    if events == [] then []
    else Own(events[..|events| - 1], cnpj) + if events[|events| - 1].author == cnpj then [events[|events| - 1]] else []
  }

  /** Only the company's own events tell its manifestação. */
  lemma {:induction false} OwnDecide(events: seq<Event>, cnpj: Cnpj)
    ensures Deciding(Own(events, cnpj), cnpj) == Deciding(events, cnpj)
    ensures EarliestCiencia(Own(events, cnpj), cnpj) == EarliestCiencia(events, cnpj)
  {
    if events != [] {
      var front, e := events[..|events| - 1], events[|events| - 1];
      OwnDecide(front, cnpj);
      if e.author == cnpj {
        var own := Own(front, cnpj);
        assert (own + [e])[..|own|] == own;
      } else {
        assert Own(events, cnpj) == Own(front, cnpj);
      }
    }
  }

  lemma OwnCons(row: EventRow, rows: seq<EventRow>, cnpj: Cnpj)
    ensures OwnRows([row] + rows, cnpj) == (if row.event.author == cnpj then [row] else []) + OwnRows(rows, cnpj)
  {
    assert ([row] + rows)[1..] == rows;
  }

  lemma {:induction false} OwnMembers(rows: seq<EventRow>, cnpj: Cnpj)
    ensures forall r :: r in OwnRows(rows, cnpj) ==> r in rows
  {
    if rows != [] {
      OwnMembers(rows[1..], cnpj);
    }
  }

  /** Inserting in order and keeping a company's rows commute. */
  lemma {:induction false} OwnInsert(row: EventRow, rows: seq<EventRow>, cnpj: Cnpj)
    requires Sorted(rows)
    ensures OwnRows(InsertRow(row, rows), cnpj)
         == if row.event.author == cnpj then InsertRow(row, OwnRows(rows, cnpj)) else OwnRows(rows, cnpj)
  {
    hide ListedBefore;
    if rows == [] || ListedBefore(row, rows[0]) {
      OwnCons(row, rows, cnpj);
      var own := OwnRows(rows, cnpj);
      if own != [] {
        OwnMembers(rows, cnpj);
        assert own[0] in rows;
        var j :| 0 <= j < |rows| && rows[j] == own[0];
        ListedThrough(row, rows[0], own[0]);
        assert own[0] == rows[0] || ListedBefore(rows[0], rows[j]);
      }
    } else {
      var rest := rows[1..];
      assert Sorted(rest);
      OwnInsert(row, rest, cnpj);
      OwnCons(rows[0], rest, cnpj);
      OwnCons(rows[0], InsertRow(row, rest), cnpj);
      assert rows == [rows[0]] + rest;
      var own := OwnRows(rest, cnpj);
      if rows[0].event.author == cnpj {
        assert OwnRows(rows, cnpj) == [rows[0]] + own;
        assert ([rows[0]] + own)[1..] == own;
      } else {
        assert OwnRows(rows, cnpj) == own;
      }
    }
  }

  lemma ListedThrough(a: EventRow, b: EventRow, c: EventRow)
    ensures ListedBefore(a, b) && ListedBefore(b, c) ==> ListedBefore(a, c)
  {
  }

  lemma {:induction false} OwnListing(rows: seq<EventRow>, chave: Chave, cnpj: Cnpj)
    ensures OwnRows(ListRows(rows, chave), cnpj) == ListRows(OwnRows(rows, cnpj), chave)
  {
    if rows != [] {
      OwnListing(rows[1..], chave, cnpj);
      ListingIsSortedSelection(rows[1..], chave);
      var own, rest := OwnRows(rows[1..], cnpj), ListRows(rows[1..], chave);
      if rows[0].event.author == cnpj {
        assert OwnRows(rows, cnpj) == [rows[0]] + own;
        assert ([rows[0]] + own)[1..] == own;
      } else {
        assert OwnRows(rows, cnpj) == own;
      }
      if rows[0].event.chave == chave {
        OwnInsert(Unlinked(rows[0]), rest, cnpj);
      }
    }
  }

  function EventColumn(rows: seq<EventRow>): seq<Event> {
    seq(|rows|, i requires 0 <= i < |rows| => rows[i].event)
  }

  lemma {:induction false} OwnSnoc(rows: seq<EventRow>, row: EventRow, cnpj: Cnpj)
    ensures OwnRows(rows + [row], cnpj) == OwnRows(rows, cnpj) + if row.event.author == cnpj then [row] else []
  {
    if rows == [] {
      assert rows + [row] == [row] + [];
      OwnCons(row, [], cnpj);
    } else {
      OwnSnoc(rows[1..], row, cnpj);
      assert (rows + [row])[1..] == rows[1..] + [row];
    }
  }

  lemma {:induction false} OwnEvents(rows: seq<EventRow>, cnpj: Cnpj)
    ensures Own(EventColumn(rows), cnpj) == EventColumn(OwnRows(rows, cnpj))
  {
    if rows != [] {
      var front, row := rows[..|rows| - 1], rows[|rows| - 1];
      OwnEvents(front, cnpj);
      OwnSnoc(front, row, cnpj);
      assert rows == front + [row];
      assert EventColumn(rows)[..|rows| - 1] == EventColumn(front);
    }
  }

  lemma {:induction false} OwnKept(db: Db, company: CompanyId, ids: set<DocumentId>, rows: seq<EventRow>,
                                   other: CompanyId)
    requires other in db.companies && other != company
    ensures OwnRows(KeptEvents(db, company, ids, rows), db.companies[other]) == OwnRows(rows, db.companies[other])
  {
    if rows != [] {
      var cnpj, rest := db.companies[other], KeptEvents(db, company, ids, rows[1..]);
      OwnKept(db, company, ids, rows[1..], other);
      if DeletesEvent(db, company, ids, rows[0]) {
        assert KeptEvents(db, company, ids, rows) == rest;
        assert OwnRows(rows, cnpj) == OwnRows(rows[1..], cnpj);
      } else {
        OwnCons(rows[0], rest, cnpj);
      }
    }
  }

  lemma {:induction false} OwnUnlinked(ids: set<DocumentId>, rows: seq<EventRow>, chave: Chave, cnpj: Cnpj)
    ensures Selected(OwnRows(UnlinkEvents(ids, rows), cnpj), chave) == Selected(OwnRows(rows, cnpj), chave)
  {
    if rows != [] {
      OwnUnlinked(ids, rows[1..], chave, cnpj);
      var unlinked := UnlinkEvents(ids, rows);
      assert unlinked[1..] == UnlinkEvents(ids, rows[1..]);
      if rows[0].event.author == cnpj {
        assert OwnRows(rows, cnpj)[1..] == OwnRows(rows[1..], cnpj);
        assert OwnRows(unlinked, cnpj)[1..] == OwnRows(unlinked[1..], cnpj);
      } else {
        assert OwnRows(rows, cnpj) == OwnRows(rows[1..], cnpj);
        assert OwnRows(unlinked, cnpj) == OwnRows(unlinked[1..], cnpj);
      }
    }
  }

  /** What another registered company declared of any chave is what it was before. */
  lemma ResetKeepsManifestacao(db: Db, company: CompanyId, other: CompanyId, chave: Chave)
    requires other in db.companies && other != company
    ensures ManifestacaoOf(EventsOf(Reset(db, company).events, chave), db.companies[other])
         == ManifestacaoOf(EventsOf(db.events, chave), db.companies[other])
  {
    hide ExclusiveIds, KeptEvents, UnlinkEvents, OwnRows, Selected, ListRows, Own, Deciding, EarliestCiencia;
    var ids, cnpj := ExclusiveIds(db, company), db.companies[other];
    var kept, left := KeptEvents(db, company, ids, db.events), Reset(db, company).events;
    OwnKept(db, company, ids, db.events, other);
    OwnUnlinked(ids, kept, chave, cnpj);
    SameSelection(OwnRows(left, cnpj), OwnRows(db.events, cnpj), chave);
    OwnListing(left, chave, cnpj);
    OwnListing(db.events, chave, cnpj);
    OwnEvents(ListRows(left, chave), cnpj);
    OwnEvents(ListRows(db.events, chave), cnpj);
    OwnDecide(EventsOf(left, chave), cnpj);
    OwnDecide(EventsOf(db.events, chave), cnpj);
  }

  /** No event written by another registered company is removed. */
  lemma ResetKeepsOthersEvents(db: Db, company: CompanyId, other: CompanyId, row: EventRow)
    requires row in db.events && other in db.companies && other != company && row.event.author == db.companies[other]
    ensures Keeps(db, company, row)
  {
    hide Keeps, KeptEvents, ExclusiveIds;
    KeptUnlessDeleted(db, company, row);
  }

  lemma ArrivalShows(db: Db, a: Arrival)
    requires Consistent(db) && a.company in db.companies && IdAvailable(db, a)
    ensures Sees(ApplyDocument(db, a), a.company, a.chave)
    ensures var shown := View(ApplyDocument(db, a), a.company, a.chave).value;
            (shown.manifestacao, shown.at) == ManifestacaoOf(EventsOf(db.events, a.chave), db.companies[a.company])
  {
    hide EventsOf, ManifestacaoOf, LinkEvents, HasRegisteredCancelamento;
    var copied, r := WithCopy(db, a), ApplyDocument(db, a);
    var doc := StoredCopy(db, a);
    assert r == NfeStore.RefreshChave(copied, a.chave);
    LinkKeepsEvents(db.events, a.chave, doc.id, a.chave);
    assert Related(copied, (a.company, doc.id), doc.id);
  }

  /**
   When another company's copy of any chave arrives after the reset, it is shown the manifestação it would
   have been shown without it.
   */
  lemma LaterCopyShowsTheSame(db: Db, company: CompanyId, a: Arrival)
    requires Consistent(db) && a.company in db.companies && a.company != company
    requires IdAvailable(db, a) && IdAvailable(Reset(db, company), a)
    ensures var with := View(ApplyDocument(Reset(db, company), a), a.company, a.chave);
            var without := View(ApplyDocument(db, a), a.company, a.chave);
            && with.Some? && without.Some?
            && with.value.manifestacao == without.value.manifestacao && with.value.at == without.value.at
  {
    hide Consistent, EventsOf, ManifestacaoOf, ApplyDocument, Reset, IdAvailable;
    ResetConsistent(db, company);
    ResetCompanies(db, company);
    ResetKeepsManifestacao(db, company, a.company, a.chave);
    ArrivalShows(db, a);
    ArrivalShows(Reset(db, company), a);
  }

  lemma ResetCompanies(db: Db, company: CompanyId)
    ensures Reset(db, company).companies == db.companies
  {
  }

  // ----- the counts -----

  lemma MapSplit<K, V>(m: map<K, V>, kept: map<K, V>, gone: set<K>)
    requires gone <= m.Keys && kept.Keys == m.Keys - gone
    ensures |kept| + |gone| == |m|
  {
    assert |kept| == |kept.Keys| && |m| == |m.Keys|;
  }

  lemma RelationCount(db: Db, company: CompanyId)
    ensures RowsAffected(db, company).companyDocuments == |db.relations| - |Reset(db, company).relations|
  {
    MapSplit(db.relations, Reset(db, company).relations, set k | k in db.relations && k.0 == company);
  }

  lemma MarkCount(db: Db, company: CompanyId)
    ensures RowsAffected(db, company).exportMarks == |db.marks| - |Reset(db, company).marks|
  {
    MapSplit(db.marks, Reset(db, company).marks, set k | k in db.marks && k.0 == company);
  }

  lemma DocumentCount(db: Db, company: CompanyId)
    ensures RowsAffected(db, company).documents == |db.documents| - |Reset(db, company).documents|
  {
    hide ExclusiveIds;
    var ids := ExclusiveIds(db, company);
    var kept := map c | c in db.documents && db.documents[c].id !in ids :: db.documents[c];
    MapSplit(db.documents, kept, set c | c in db.documents && db.documents[c].id in ids);
  }

  /** The log rows counted as kept are those of the company, each as often as it is there. */
  lemma {:induction false} SentAre(records: seq<ManifestacaoRecord>, company: CompanyId, item: ManifestacaoRecord)
    ensures multiset(Sent(records, company))[item] == if item.company == company then multiset(records)[item] else 0
  {
    if records != [] {
      SentAre(records[1..], company, item);
      assert records == [records[0]] + records[1..];
    }
  }

  /** The counts a preview shows are the rows a reset removes. */
  lemma CountsAreRowsRemoved(db: Db, company: CompanyId)
    ensures var r, n := Reset(db, company), RowsAffected(db, company);
            && n.companyDocuments == |db.relations| - |r.relations|
            && n.documents == |db.documents| - |r.documents|
            && n.events == |db.events| - |r.events|
            && n.exportMarks == |db.marks| - |r.marks|
            && r.manifestacoes == db.manifestacoes && n.manifestacoesKept == |Sent(r.manifestacoes, company)|
  {
    hide ExclusiveIds;
    RelationCount(db, company);
    DocumentCount(db, company);
    MarkCount(db, company);
    KeptAre(db, company, ExclusiveIds(db, company), db.events);
  }

  /** A second reset finds nothing to remove. */
  lemma ResetTwice(db: Db, company: CompanyId)
    requires Consistent(db) && company in db.companies
    requires forall c :: c in db.companies && c != company ==> db.companies[c] != db.companies[company]
    ensures RowsAffected(Reset(db, company), company) == Counts(0, 0, 0, 0, |Sent(db.manifestacoes, company)|)
  {
    var r := Reset(db, company);
    ResetForgetsCompany(db, company);
    assert r.companies == db.companies && r.manifestacoes == db.manifestacoes;
    NothingAffected(r, company);
  }

  lemma NothingAffected(db: Db, company: CompanyId)
    requires company in db.companies
    requires (forall k :: k in db.relations ==> k.0 != company) && (forall k :: k in db.marks ==> k.0 != company)
    requires forall row :: row in db.events && row.event.author == db.companies[company] ==>
               row.event.chave in db.documents
    ensures RowsAffected(db, company) == Counts(0, 0, 0, 0, |Sent(db.manifestacoes, company)|)
  {
    var ids := ExclusiveIds(db, company);
    assert ids == {};
    assert (set k | k in db.relations && k.0 == company) == {};
    assert (set c | c in db.documents && db.documents[c].id in ids) == {};
    assert (set k | k in db.marks && k.0 == company) == {};
    NothingDeleted(db, company, ids, db.events);
  }

  lemma {:induction false} NothingDeleted(db: Db, company: CompanyId, ids: set<DocumentId>, rows: seq<EventRow>)
    requires forall row :: row in rows ==> !DeletesEvent(db, company, ids, row)
    ensures DeletedEvents(db, company, ids, rows) == []
  {
    if rows != [] {
      assert forall row :: row in rows[1..] ==> row in rows;
      NothingDeleted(db, company, ids, rows[1..]);
    }
  }
}
