/**
 Every transaction of the NF-e store leaves the derived columns equal to a recomputation from the
 events, and the derived state does not depend on the order in which anything arrived.
 */
module NfeStoreProofs {
  import opened Wrappers
  import opened NfeTypes
  import opened NfeManifestacao
  import opened NfeStore

  // ----- the listing -----

  function Unlinked(row: EventRow): EventRow {
    row.(documentId := None)
  }

  lemma {:induction false} InsertMembers(row: EventRow, rows: seq<EventRow>)
    ensures multiset(InsertRow(row, rows)) == multiset(rows) + multiset{row}
  {
    if !(rows == [] || ListedBefore(row, rows[0])) {
      InsertMembers(row, rows[1..]);
      assert rows == [rows[0]] + rows[1..];
    }
  }

  predicate Sorted(rows: seq<EventRow>) {
    forall i, j :: 0 <= i < j < |rows| ==> ListedBefore(rows[i], rows[j])
  }

  lemma {:induction false} InsertSorts(row: EventRow, rows: seq<EventRow>)
    requires Sorted(rows)
    ensures Sorted(InsertRow(row, rows))
  {
    if !(rows == [] || ListedBefore(row, rows[0])) {
      InsertSorts(row, rows[1..]);
      InsertMembers(row, rows[1..]);
      var rest := InsertRow(row, rows[1..]);
      forall j | 0 <= j < |rest|
        ensures ListedBefore(rows[0], rest[j])
      {
        assert rest[j] in multiset(rest);
        assert rest[j] == row || rest[j] in rows[1..];
      }
    }
  }

  function Selected(rows: seq<EventRow>, chave: Chave): seq<EventRow> {
    if rows == [] then []
    else (if rows[0].event.chave == chave then [Unlinked(rows[0])] else []) + Selected(rows[1..], chave)
  }

  /** The listing is the chave's rows, each once, oldest first. */
  lemma {:induction false} ListingIsSortedSelection(rows: seq<EventRow>, chave: Chave)
    ensures Sorted(ListRows(rows, chave))
    ensures multiset(ListRows(rows, chave)) == multiset(Selected(rows, chave))
  {
    if rows != [] {
      ListingIsSortedSelection(rows[1..], chave);
      var rest := ListRows(rows[1..], chave);
      if rows[0].event.chave == chave {
        InsertSorts(Unlinked(rows[0]), rest);
        InsertMembers(Unlinked(rows[0]), rest);
      } else {
        assert [] + Selected(rows[1..], chave) == Selected(rows[1..], chave);
      }
    }
  }

  lemma {:induction false} SelectedMembers(rows: seq<EventRow>, chave: Chave)
    ensures forall r :: r in Selected(rows, chave) <==>
              exists i :: 0 <= i < |rows| && rows[i].event.chave == chave && Unlinked(rows[i]) == r
  {
    if rows != [] {
      SelectedMembers(rows[1..], chave);
      forall r
        ensures r in Selected(rows, chave) <==>
                  exists i :: 0 <= i < |rows| && rows[i].event.chave == chave && Unlinked(rows[i]) == r
      {
        if r in Selected(rows[1..], chave) {
          var i :| 0 <= i < |rows[1..]| && rows[1..][i].event.chave == chave && Unlinked(rows[1..][i]) == r;
          assert rows[i + 1] == rows[1..][i];
        }
        if i :| 0 <= i < |rows| && rows[i].event.chave == chave && Unlinked(rows[i]) == r {
          if i > 0 { assert rows[1..][i - 1] == rows[i]; }
        }
      }
    }
  }

  lemma EventMembers(rows: seq<EventRow>, chave: Chave)
    ensures forall e :: e in EventsOf(rows, chave) <==>
              exists i :: 0 <= i < |rows| && rows[i].event == e && e.chave == chave
  {
    ListingIsSortedSelection(rows, chave);
    SelectedMembers(rows, chave);
    var listed := ListRows(rows, chave);
    forall e
      ensures e in EventsOf(rows, chave) <==> exists i :: 0 <= i < |rows| && rows[i].event == e && e.chave == chave
    {
      if e in EventsOf(rows, chave) {
        var k :| 0 <= k < |listed| && listed[k].event == e;
        assert listed[k] in multiset(listed);
        assert listed[k] in Selected(rows, chave);
      }
      if i :| 0 <= i < |rows| && rows[i].event == e && e.chave == chave {
        assert rows[i].event.chave == chave;
        assert Unlinked(rows[i]) in Selected(rows, chave);
        assert Unlinked(rows[i]) in multiset(Selected(rows, chave));
        assert Unlinked(rows[i]) in listed;
        var k :| 0 <= k < |listed| && listed[k] == Unlinked(rows[i]);
        assert EventsOf(rows, chave)[k] == e;
      }
    }
  }

  /** Two tables whose rows of a chave differ only in their links list the same events. */
  lemma {:induction false} SameSelection(a: seq<EventRow>, b: seq<EventRow>, chave: Chave)
    requires Selected(a, chave) == Selected(b, chave)
    ensures ListRows(a, chave) == ListRows(b, chave)
  {
    ListingOfSelected(a, chave);
    ListingOfSelected(b, chave);
  }

  function InsertAll(rows: seq<EventRow>): seq<EventRow> {
    if rows == [] then [] else InsertRow(rows[0], InsertAll(rows[1..]))
  }

  lemma {:induction false} ListingOfSelected(rows: seq<EventRow>, chave: Chave)
    ensures ListRows(rows, chave) == InsertAll(Selected(rows, chave))
  {
    if rows != [] {
      ListingOfSelected(rows[1..], chave);
      var s := Selected(rows, chave);
      if rows[0].event.chave == chave {
        assert s[0] == Unlinked(rows[0]) && s[1..] == Selected(rows[1..], chave);
      } else {
        assert s == Selected(rows[1..], chave);
      }
    }
  }

  lemma {:induction false} LinkKeepsSelection(rows: seq<EventRow>, chave: Chave, id: DocumentId, c: Chave)
    ensures Selected(LinkEvents(rows, chave, id), c) == Selected(rows, c)
  {
    if rows != [] {
      LinkKeepsSelection(rows[1..], chave, id, c);
      assert LinkEvents(rows, chave, id)[1..] == LinkEvents(rows[1..], chave, id);
    }
  }

  lemma LinkKeepsEvents(rows: seq<EventRow>, chave: Chave, id: DocumentId, c: Chave)
    ensures EventsOf(LinkEvents(rows, chave, id), c) == EventsOf(rows, c)
  {
    LinkKeepsSelection(rows, chave, id, c);
    SameSelection(LinkEvents(rows, chave, id), rows, c);
  }

  lemma {:induction false} UpsertKeepsOtherSelections(rows: seq<EventRow>, e: Event, now: Time, c: Chave)
    requires e.chave != c
    ensures Selected(UpsertEvent(rows, e, now), c) == Selected(rows, c)
  {
    if rows != [] {
      if SameKey(rows[0].event, e) {
        assert ([UpdateRow(rows[0], e)] + rows[1..])[1..] == rows[1..];
      } else {
        UpsertKeepsOtherSelections(rows[1..], e, now, c);
        assert ([rows[0]] + UpsertEvent(rows[1..], e, now))[1..] == UpsertEvent(rows[1..], e, now);
      }
    }
  }

  lemma UpsertKeepsOtherEvents(rows: seq<EventRow>, e: Event, now: Time, c: Chave)
    requires e.chave != c
    ensures EventsOf(UpsertEvent(rows, e, now), c) == EventsOf(rows, c)
  {
    UpsertKeepsOtherSelections(rows, e, now, c);
    SameSelection(UpsertEvent(rows, e, now), rows, c);
  }

  // ----- the upsert -----

  /** With unique keys the upsert changes the one row of the key, or appends one. */
  lemma HasEventTail(rows: seq<EventRow>, e: Event)
    requires rows != [] && !SameKey(rows[0].event, e)
    ensures HasEvent(rows, e) <==> HasEvent(rows[1..], e)
  {
    if HasEvent(rows, e) {
      var i :| 0 <= i < |rows| && SameKey(rows[i].event, e);
      assert SameKey(rows[1..][i - 1].event, e);
    }
    if HasEvent(rows[1..], e) {
      var i :| 0 <= i < |rows[1..]| && SameKey(rows[1..][i].event, e);
      assert SameKey(rows[i + 1].event, e);
    }
  }

  lemma {:induction false} UpsertRows(rows: seq<EventRow>, e: Event, now: Time)
    requires KeysUnique(rows)
    ensures var r := UpsertEvent(rows, e, now);
            if HasEvent(rows, e) then
              |r| == |rows| && forall i :: 0 <= i < |rows| ==>
                r[i] == if SameKey(rows[i].event, e) then UpdateRow(rows[i], e) else rows[i]
            else r == rows + [EventRow(e, None, now)]
  {
    if rows != [] {
      var r := UpsertEvent(rows, e, now);
      assert forall i :: 0 <= i < |rows[1..]| ==> rows[1..][i] == rows[i + 1];
      if SameKey(rows[0].event, e) {
        assert forall i :: 1 <= i < |rows| ==> r[i] == rows[i];
      } else {
        UpsertRows(rows[1..], e, now);
        assert HasEvent(rows, e) <==> HasEvent(rows[1..], e) by {
          HasEventTail(rows, e);
        }
        if HasEvent(rows, e) {
          forall i | 0 <= i < |rows|
            ensures r[i] == if SameKey(rows[i].event, e) then UpdateRow(rows[i], e) else rows[i]
          {
            if i > 0 { assert r[i] == UpsertEvent(rows[1..], e, now)[i - 1]; }
          }
        }
      }
    }
  }

  lemma UpsertKeepsKeysUnique(rows: seq<EventRow>, e: Event, now: Time)
    requires KeysUnique(rows)
    ensures KeysUnique(UpsertEvent(rows, e, now))
  {
    UpsertRows(rows, e, now);
  }

  // ----- one transaction at a time -----

  predicate LinksBut(db: Db, chave: Chave) {
    forall i :: 0 <= i < |db.events| ==>
      || db.events[i].documentId == LinkOf(db, db.events[i].event.chave)
      || (db.events[i].event.chave == chave && db.events[i].documentId.None?)
  }

  predicate ManifestacoesBut(db: Db, chave: Chave) {
    forall c, k :: c in db.documents && c != chave && k in db.relations && k.1 == db.documents[c].id
                   && k.0 in db.companies ==>
      (db.relations[k].manifestacao, db.relations[k].manifestacaoAt)
      == ManifestacaoOf(EventsOf(db.events, c), db.companies[k.0])
  }

  predicate SituacoesBut(db: Db, chave: Chave) {
    forall c :: c in db.documents && c != chave && HasRegisteredCancelamento(EventsOf(db.events, c)) ==>
      db.documents[c].situacao == Cancelada
  }

  /** Consistent but for what refreshChave recomputes about one chave. */
  predicate ConsistentBut(db: Db, chave: Chave) {
    && KeysUnique(db.events)
    && IdsUnique(db)
    && LinksBut(db, chave)
    && RelationsResolve(db)
    && DocumentsSeen(db)
    && ManifestacoesBut(db, chave)
    && SituacoesBut(db, chave)
  }

  /** What a refresh leaves alone. */
  lemma RefreshFrame(db: Db, chave: Chave)
    ensures var r := RefreshChave(db, chave);
            && r.companies == db.companies
            && r.documents.Keys == db.documents.Keys
            && (forall c :: c in db.documents ==> r.documents[c].id == db.documents[c].id)
            && (forall c :: c in db.documents && c != chave ==> r.documents[c] == db.documents[c])
            && r.relations.Keys == db.relations.Keys
            && |r.events| == |db.events|
            && (forall i :: 0 <= i < |db.events| ==> r.events[i].event == db.events[i].event)
            && (forall i :: 0 <= i < |db.events| ==> r.events[i].createdAt == db.events[i].createdAt)
            && (forall c :: EventsOf(r.events, c) == EventsOf(db.events, c))
  {
    if chave in db.documents {
      forall c {
        LinkKeepsEvents(db.events, chave, db.documents[chave].id, c);
      }
    }
  }

  lemma RefreshDerives(db: Db, chave: Chave)
    requires chave in db.documents
    ensures var r := RefreshChave(db, chave);
            var events := EventsOf(db.events, chave);
            && r.documents[chave]
                 == db.documents[chave].(situacao := SituacaoFromEvents(db.documents[chave].situacao, events))
            && (forall i :: 0 <= i < |db.events| ==>
                  r.events[i].documentId == LinkRow(db.events[i], chave, db.documents[chave].id).documentId)
            && (forall k :: k in db.relations ==>
                  r.relations[k] == if Related(db, k, db.documents[chave].id)
                                    then RefreshRelation(db.relations[k], events, db.companies[k.0])
                                    else db.relations[k])
  {
    LinkKeepsEvents(db.events, chave, db.documents[chave].id, chave);
  }

  lemma RefreshKeepsReferences(db: Db, chave: Chave)
    requires KeysUnique(db.events) && IdsUnique(db) && RelationsResolve(db) && DocumentsSeen(db)
    ensures var r := RefreshChave(db, chave);
            KeysUnique(r.events) && IdsUnique(r) && RelationsResolve(r) && DocumentsSeen(r)
  {
    hide RefreshChave, EventsOf, SameKey;
    var r := RefreshChave(db, chave);
    RefreshFrame(db, chave);
    forall k | k in r.relations
      ensures HasDocument(r.documents, k.1)
    {
      var c :| c in db.documents && db.documents[c].id == k.1;
      assert c in r.documents && r.documents[c].id == k.1;
    }
    forall c | c in r.documents
      ensures Seen(r.relations, r.documents[c].id)
    {
      var k :| k in db.relations && k.1 == db.documents[c].id;
      assert k in r.relations;
    }
  }

  lemma RefreshLinks(db: Db, chave: Chave)
    requires LinksBut(db, chave)
    ensures LinksExact(RefreshChave(db, chave))
  {
    RefreshFrame(db, chave);
    if chave in db.documents {
      RefreshDerives(db, chave);
    }
  }

  lemma RefreshDerivesStates(db: Db, chave: Chave)
    requires IdsUnique(db) && ManifestacoesBut(db, chave) && SituacoesBut(db, chave)
    ensures ManifestacoesDerived(RefreshChave(db, chave)) && SituacoesDerived(RefreshChave(db, chave))
  {
    var r := RefreshChave(db, chave);
    RefreshFrame(db, chave);
    if chave in db.documents {
      RefreshDerives(db, chave);
      forall c, k | c in r.documents && k in r.relations && k.1 == r.documents[c].id && k.0 in r.companies
        ensures (r.relations[k].manifestacao, r.relations[k].manifestacaoAt)
             == ManifestacaoOf(EventsOf(r.events, c), r.companies[k.0])
      {
        assert k.1 == db.documents[chave].id ==> c == chave;
      }
    }
  }

  lemma RefreshRestoresConsistency(db: Db, chave: Chave)
    requires ConsistentBut(db, chave)
    ensures Consistent(RefreshChave(db, chave))
  {
    RefreshKeepsReferences(db, chave);
    RefreshLinks(db, chave);
    RefreshDerivesStates(db, chave);
  }

  /** A first copy gets an identifier no document has; a merged copy takes none. */
  predicate IdAvailable(db: Db, a: Arrival) {
    a.chave in db.documents || forall c :: c in db.documents ==> db.documents[c].id != a.newId
  }

  lemma EventStored(db: Db, e: Event, now: Time)
    requires Consistent(db)
    ensures ConsistentBut(db.(events := UpsertEvent(db.events, e, now)), e.chave)
  {
    hide EventsOf, UpsertEvent, KeysUnique, ManifestacaoOf, HasRegisteredCancelamento;
    var stored := db.(events := UpsertEvent(db.events, e, now));
    UpsertKeepsKeysUnique(db.events, e, now);
    EventLinks(db, e, now);
    forall c | c != e.chave
      ensures EventsOf(stored.events, c) == EventsOf(db.events, c)
    {
      UpsertKeepsOtherEvents(db.events, e, now, c);
    }
  }

  lemma EventLinks(db: Db, e: Event, now: Time)
    requires KeysUnique(db.events) && LinksExact(db)
    ensures LinksBut(db.(events := UpsertEvent(db.events, e, now)), e.chave)
  {
    hide UpsertEvent, KeysUnique;
    var stored := db.(events := UpsertEvent(db.events, e, now));
    UpsertRows(db.events, e, now);
    forall i | 0 <= i < |stored.events|
      ensures || stored.events[i].documentId == LinkOf(stored, stored.events[i].event.chave)
              || (stored.events[i].event.chave == e.chave && stored.events[i].documentId.None?)
    {
      if i < |db.events| {
        assert db.events[i].documentId == LinkOf(db, db.events[i].event.chave);
      }
    }
  }

  lemma EventInvariant(db: Db, e: Event, now: Time)
    requires Consistent(db)
    ensures Consistent(ApplyEvent(db, e, now))
  {
    EventStored(db, e, now);
    RefreshRestoresConsistency(db.(events := UpsertEvent(db.events, e, now)), e.chave);
  }

  function WithCopy(db: Db, a: Arrival): Db {
    UpsertRelation(db.(documents := db.documents[a.chave := StoredCopy(db, a)]), a.company, StoredCopy(db, a).id,
      a.role)
  }

  lemma CopyReferences(db: Db, a: Arrival)
    requires RelationsResolve(db) && DocumentsSeen(db) && a.company in db.companies
    ensures RelationsResolve(WithCopy(db, a)) && DocumentsSeen(WithCopy(db, a))
  {
    var stored, doc := WithCopy(db, a), StoredCopy(db, a);
    forall k | k in stored.relations
      ensures k.0 in stored.companies && HasDocument(stored.documents, k.1)
    {
      if k == (a.company, doc.id) {
        assert stored.documents[a.chave].id == k.1;
      } else {
        var c :| c in db.documents && db.documents[c].id == k.1;
        assert c in stored.documents && stored.documents[c].id == k.1;
      }
    }
    forall c | c in stored.documents
      ensures Seen(stored.relations, stored.documents[c].id)
    {
      if c == a.chave {
        assert (a.company, doc.id) in stored.relations;
      } else {
        var k :| k in db.relations && k.1 == db.documents[c].id;
        assert k in stored.relations;
      }
    }
  }

  lemma CopyIdentities(db: Db, a: Arrival)
    requires IdsUnique(db) && IdAvailable(db, a)
    ensures IdsUnique(WithCopy(db, a))
    ensures forall c :: c in db.documents && c != a.chave ==> db.documents[c].id != StoredCopy(db, a).id
    ensures forall c :: c != a.chave || c in db.documents ==> LinkOf(WithCopy(db, a), c) == LinkOf(db, c)
  {
  }

  lemma CopyLinks(db: Db, a: Arrival)
    requires IdsUnique(db) && LinksExact(db) && IdAvailable(db, a)
    ensures LinksBut(WithCopy(db, a), a.chave)
  {
    CopyIdentities(db, a);
    var stored := WithCopy(db, a);
    assert stored.events == db.events;
  }

  lemma CopyKeepsDerived(db: Db, a: Arrival)
    requires IdsUnique(db) && IdAvailable(db, a) && ManifestacoesDerived(db) && SituacoesDerived(db)
    ensures ManifestacoesBut(WithCopy(db, a), a.chave) && SituacoesBut(WithCopy(db, a), a.chave)
  {
    CopyIdentities(db, a);
    var stored := WithCopy(db, a);
    assert stored.events == db.events && stored.companies == db.companies;
    forall c, k | c in stored.documents && c != a.chave && k in stored.relations && k.1 == stored.documents[c].id
      ensures k in db.relations && stored.relations[k] == db.relations[k] && stored.documents[c] == db.documents[c]
    {
    }
  }

  lemma CopyStored(db: Db, a: Arrival)
    requires Consistent(db) && a.company in db.companies && IdAvailable(db, a)
    ensures ConsistentBut(WithCopy(db, a), a.chave)
  {
    CopyReferences(db, a);
    CopyIdentities(db, a);
    CopyLinks(db, a);
    CopyKeepsDerived(db, a);
    assert WithCopy(db, a).events == db.events;
  }

  lemma DocumentInvariant(db: Db, a: Arrival)
    requires Consistent(db) && a.company in db.companies && IdAvailable(db, a)
    ensures Consistent(ApplyDocument(db, a))
  {
    CopyStored(db, a);
    RefreshRestoresConsistency(WithCopy(db, a), a.chave);
  }

  lemma RecordOneInvariant(db: Db, item: ManifestacaoRecord, now: Time)
    requires Consistent(db)
    ensures Consistent(RecordOne(db, item, now))
  {
    var logged := db.(manifestacoes := db.manifestacoes + [item]);
    assert Consistent(logged);
    EventInvariant(logged, ManifestacaoEvent(item), now);
  }

  lemma {:induction false} RecordInvariant(db: Db, items: seq<ManifestacaoRecord>, now: Time)
    requires Consistent(db)
    ensures Consistent(RecordAll(db, items, now))
  {
    if items != [] {
      RecordInvariant(db, items[..|items| - 1], now);
      RecordOneInvariant(RecordAll(db, items[..|items| - 1], now), items[|items| - 1], now);
    }
  }
}
