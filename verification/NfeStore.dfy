/**
 The NF-e tables and the transactions of internal/store/nfe.go, as functions from one database
 value to the next. Each SQL statement of internal/store/queries/nfe.sql is one function here.
 */
module NfeStore {
  import opened Wrappers
  import opened NfeTypes
  import opened NfeManifestacao
  import opened NfeMerge

  type CompanyId = string
  type DocumentId = string

  /** A row of company_nfe_documents: what one company sees of one document. */
  datatype Relation = Relation(role: string, manifestacao: Manifestacao, manifestacaoAt: Option<Time>)

  /** A row of nfe_events; documentId is the link to the document, NULL until it arrives. */
  datatype EventRow = EventRow(event: Event, documentId: Option<DocumentId>, createdAt: Time)

  datatype ExportMark = ExportMark(hash: Hash, events: nat)

  datatype Status = Registrada | JaRegistrada | Rejeitada | Erro

  /** The recorded outcome of one manifestação sent to SEFAZ. */
  datatype ManifestacaoRecord = ManifestacaoRecord(
    company: CompanyId,
    cnpj: Cnpj,
    chave: Chave,
    tpEvento: nat,
    nSeqEvento: nat,
    status: Status,
    eventAt: Moment,
    registeredAt: Option<Moment>,
    procHash: Hash)

  datatype Db = Db(
    companies: map<CompanyId, Cnpj>,
    documents: map<Chave, Document>,
    relations: map<(CompanyId, DocumentId), Relation>,
    events: seq<EventRow>,
    marks: map<(CompanyId, DocumentId, string), ExportMark>,
    manifestacoes: seq<ManifestacaoRecord>)

  // ----- nfe_events -----

  predicate SameKey(a: Event, b: Event) {
    a.chave == b.chave && a.tpEvento == b.tpEvento && a.nSeqEvento == b.nSeqEvento
  }

  predicate HasEvent(rows: seq<EventRow>, e: Event) {
    exists i :: 0 <= i < |rows| && SameKey(rows[i].event, e)
  }

  /** ON CONFLICT: the row keeps its link and creation time; a resumo never overwrites a completa. */
  function UpdateRow(row: EventRow, e: Event): EventRow {
    if row.event.completeness.Completa? && e.completeness.Resumo? then row
    else row.(event := e.(sentByNanci := row.event.sentByNanci || e.sentByNanci))
  }

  function UpsertEvent(rows: seq<EventRow>, e: Event, now: Time): seq<EventRow> {
    if rows == [] then [EventRow(e, None, now)]
    else if SameKey(rows[0].event, e) then [UpdateRow(rows[0], e)] + rows[1..]
    else [rows[0]] + UpsertEvent(rows[1..], e, now)
  }

  function LinkRow(row: EventRow, chave: Chave, id: DocumentId): EventRow {
    if row.event.chave == chave && row.documentId.None? then row.(documentId := Some(id)) else row
  }

  function LinkEvents(rows: seq<EventRow>, chave: Chave, id: DocumentId): (r: seq<EventRow>)
    ensures |r| == |rows| && forall i :: 0 <= i < |rows| ==> r[i] == LinkRow(rows[i], chave, id)
  {
    seq(|rows|, i requires 0 <= i < |rows| => LinkRow(rows[i], chave, id))
  }

  /** COALESCE(registered_at, event_at, created_at); rows are created in UTC. */
  function Stamp(row: EventRow): Moment {
    if StampOf(row.event).Some? then StampOf(row.event).value else Moment(row.createdAt, 0)
  }

  /** The wall clock an RFC 3339 text starts with. */
  function WallClock(m: Moment): int {
    m.at + 60 * m.zone
  }

  /** How the end of an RFC 3339 text sorts: +hh:mm before -hh:mm before Z. */
  function ZoneRank(zone: int): int {
    if zone > 0 then zone else if zone < 0 then 100_000 - zone else 1_000_000
  }

  /** The order of the RFC 3339 texts, which across offsets is not the order of the instants. */
  predicate TextBefore(m: Moment, n: Moment) {
    WallClock(m) < WallClock(n) || (WallClock(m) == WallClock(n) && ZoneRank(m.zone) < ZoneRank(n.zone))
  }

  predicate SameText(m: Moment, n: Moment) {
    WallClock(m) == WallClock(n) && ZoneRank(m.zone) == ZoneRank(n.zone)
  }

  /** ORDER BY stamp, tp_evento, n_seq_evento, the stamp as text */
  predicate ListedBefore(a: EventRow, b: EventRow) {
    || TextBefore(Stamp(a), Stamp(b))
    || (SameText(Stamp(a), Stamp(b)) && KeyUpTo(a.event, b.event))
  }

  predicate KeyUpTo(a: Event, b: Event) {
    a.tpEvento < b.tpEvento || (a.tpEvento == b.tpEvento && a.nSeqEvento <= b.nSeqEvento)
  }

  function InsertRow(row: EventRow, rows: seq<EventRow>): seq<EventRow> {
    if rows == [] || ListedBefore(row, rows[0]) then [row] + rows else [rows[0]] + InsertRow(row, rows[1..])
  }

  /** The rows of a chave, oldest first; links are not part of what the listing returns. */
  function ListRows(rows: seq<EventRow>, chave: Chave): seq<EventRow> {
    if rows == [] then []
    else
      var rest := ListRows(rows[1..], chave);
      if rows[0].event.chave == chave then InsertRow(rows[0].(documentId := None), rest) else rest
  }

  function EventsOf(rows: seq<EventRow>, chave: Chave): seq<Event> {
    var listed := ListRows(rows, chave);
    seq(|listed|, i requires 0 <= i < |listed| => listed[i].event)
  }

  // ----- refreshChave -----

  predicate HasRegisteredCancelamento(events: seq<Event>) {
    exists i :: 0 <= i < |events| && events[i].registered && events[i].kind.Cancelamento?
  }

  function SituacaoFromEvents(base: Situacao, events: seq<Event>): Situacao {
    if HasRegisteredCancelamento(events) then Cancelada else base
  }

  function RefreshRelation(rel: Relation, events: seq<Event>, cnpj: Cnpj): Relation {
    var m := ManifestacaoOf(events, cnpj);
    rel.(manifestacao := m.0, manifestacaoAt := m.1)
  }

  predicate Related(db: Db, k: (CompanyId, DocumentId), id: DocumentId) {
    k in db.relations && k.1 == id && k.0 in db.companies
  }

  function RefreshChave(db: Db, chave: Chave): Db {
    if chave !in db.documents then db
    else
      var doc := db.documents[chave];
      var rows := LinkEvents(db.events, chave, doc.id);
      var events := EventsOf(rows, chave);
      db.(events := rows,
          documents := db.documents[chave := doc.(situacao := SituacaoFromEvents(doc.situacao, events))],
          relations := map k | k in db.relations ::
            if Related(db, k, doc.id) then RefreshRelation(db.relations[k], events, db.companies[k.0])
            else db.relations[k])
  }

  // ----- the transactions -----

  function UpsertRelation(db: Db, company: CompanyId, id: DocumentId, role: string): Db {
    var k := (company, id);
    var rel := if k in db.relations then db.relations[k].(role := role) else Relation(role, Nenhuma, None);
    db.(relations := db.relations[k := rel])
  }

  /** One distributed copy of a document for a company; newId is the identifier a new row gets. */
  datatype Arrival = Arrival(company: CompanyId, chave: Chave, document: Document, role: string, newId: DocumentId)

  function StoredCopy(db: Db, a: Arrival): Document {
    if a.chave in db.documents then MergeDocument(db.documents[a.chave], a.document) else a.document.(id := a.newId)
  }

  function ApplyDocument(db: Db, a: Arrival): Db {
    var doc := StoredCopy(db, a);
    var stored := db.(documents := db.documents[a.chave := doc]);
    RefreshChave(UpsertRelation(stored, a.company, doc.id, a.role), a.chave)
  }

  function ApplyEvent(db: Db, e: Event, now: Time): Db {
    RefreshChave(db.(events := UpsertEvent(db.events, e, now)), e.chave)
  }

  function ManifestacaoEvent(item: ManifestacaoRecord): Event {
    Event(item.chave, item.tpEvento, item.nSeqEvento, EventTypeFromTpEvento(item.tpEvento), item.cnpj, true,
          item.registeredAt, Some(item.eventAt), Completa, item.procHash, true)
  }

  /** Only a registered event, or an already registered one that is not stored yet, becomes a row. */
  function RecordOne(db: Db, item: ManifestacaoRecord, now: Time): Db {
    var logged := db.(manifestacoes := db.manifestacoes + [item]);
    var e := ManifestacaoEvent(item);
    if item.status.Registrada? || (item.status.JaRegistrada? && !HasEvent(db.events, e)) then ApplyEvent(logged, e, now)
    else logged
  }

  function RecordAll(db: Db, items: seq<ManifestacaoRecord>, now: Time): Db {
    if items == [] then db else RecordOne(RecordAll(db, items[..|items| - 1], now), items[|items| - 1], now)
  }

  // ----- the invariant of every transaction -----

  predicate KeysUnique(rows: seq<EventRow>) {
    forall i, j :: 0 <= i < j < |rows| ==> !SameKey(rows[i].event, rows[j].event)
  }

  predicate IdsUnique(db: Db) {
    forall c, d :: c in db.documents && d in db.documents && db.documents[c].id == db.documents[d].id ==> c == d
  }

  function LinkOf(db: Db, chave: Chave): Option<DocumentId> {
    if chave in db.documents then Some(db.documents[chave].id) else None
  }

  /** A row is linked exactly when its document is stored, and then to that document. */
  predicate LinksExact(db: Db) {
    forall i :: 0 <= i < |db.events| ==> db.events[i].documentId == LinkOf(db, db.events[i].event.chave)
  }

  predicate HasDocument(documents: map<Chave, Document>, id: DocumentId) {
    exists c :: c in documents && documents[c].id == id
  }

  predicate Seen(relations: map<(CompanyId, DocumentId), Relation>, id: DocumentId) {
    exists k :: k in relations && k.1 == id
  }

  /** The cached manifestação equals the recomputation from the event table, for every company. */
  predicate ManifestacoesDerived(db: Db) {
    forall c, k :: c in db.documents && k in db.relations && k.1 == db.documents[c].id && k.0 in db.companies ==>
      (db.relations[k].manifestacao, db.relations[k].manifestacaoAt)
      == ManifestacaoOf(EventsOf(db.events, c), db.companies[k.0])
  }

  /** A registered cancelamento always shows. */
  predicate SituacoesDerived(db: Db) {
    forall c :: c in db.documents && HasRegisteredCancelamento(EventsOf(db.events, c)) ==>
      db.documents[c].situacao == Cancelada
  }

  /** Every relation is of a registered company with a stored document. */
  predicate RelationsResolve(db: Db) {
    forall k :: k in db.relations ==> k.0 in db.companies && HasDocument(db.documents, k.1)
  }

  /** No document without a company. */
  predicate DocumentsSeen(db: Db) {
    forall c :: c in db.documents ==> Seen(db.relations, db.documents[c].id)
  }

  predicate Consistent(db: Db) {
    && KeysUnique(db.events)
    && IdsUnique(db)
    && LinksExact(db)
    && RelationsResolve(db)
    && DocumentsSeen(db)
    && ManifestacoesDerived(db)
    && SituacoesDerived(db)
  }
}
