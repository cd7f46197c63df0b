/**
 What an answer of SEFAZ leaves behind, by its cStat (internal/app/nfe_manifest.go,
 internal/sefaz/evento.go): the row of nfe_events, the log row and the manifestação the company is shown.
 */
module NfeAnswers {
  import opened Wrappers
  import opened NfeTypes
  import opened NfeManifestacao
  import opened NfeStore
  import opened NfeStoreProofs
  import opened NfeHistory
  import opened NfeManifest

  /** The event nanci sent, as SEFAZ numbers it. */
  predicate IsSent(e: Event, cnpj: Cnpj, chave: Chave, tipo: Tipo) {
    && e.chave == chave && e.nSeqEvento == 1 && e.author == cnpj && e.registered && e.completeness.Completa?
    && match tipo
       case TipoConfirmacao => e.tpEvento == 210200 && e.kind.Confirmacao?
       case TipoCiencia => e.tpEvento == 210210 && e.kind.Ciencia?
       case TipoDesconhecimento => e.tpEvento == 210220 && e.kind.Desconhecimento?
       case TipoNaoRealizada => e.tpEvento == 210240 && e.kind.NaoRealizada?
  }

  predicate HoldsSent(db: Db, cnpj: Cnpj, chave: Chave, tipo: Tipo) {
    exists i :: 0 <= i < |db.events| && IsSent(db.events[i].event, cnpj, chave, tipo)
  }

  /** A row of the event's key, whatever it says. */
  predicate HoldsKey(db: Db, chave: Chave, tipo: Tipo) {
    exists i :: 0 <= i < |db.events| && db.events[i].event.chave == chave && db.events[i].event.nSeqEvento == 1
                && db.events[i].event.tpEvento == TpEvento(tipo)
  }

  /** Nothing a company is shown, of this chave or any other, depends on more than these. */
  predicate SameTables(a: Db, b: Db) {
    a.companies == b.companies && a.documents == b.documents && a.relations == b.relations && a.events == b.events
  }

  lemma SentEvent(db: Db, act: Act)
    requires Sends(db, act)
    ensures var e := ManifestacaoEvent(Record(db, act.company, act.chave, act.tipo, act.answer, act.now));
            && IsSent(e, db.companies[act.company], act.chave, act.tipo)
            && e.registeredAt == (if act.answer.Answered? then act.answer.dhRegEvento else None)
            && e.eventAt == Some(act.now) && (HasEvent(db.events, e) <==> HoldsKey(db, act.chave, act.tipo))
  {
    var e := ManifestacaoEvent(Record(db, act.company, act.chave, act.tipo, act.answer, act.now));
    if HasEvent(db.events, e) {
      var i :| 0 <= i < |db.events| && SameKey(db.events[i].event, e);
      assert db.events[i].event.chave == act.chave;
    }
    if HoldsKey(db, act.chave, act.tipo) {
      var i :| 0 <= i < |db.events| && db.events[i].event.chave == act.chave && db.events[i].event.nSeqEvento == 1
               && db.events[i].event.tpEvento == TpEvento(act.tipo);
      assert SameKey(db.events[i].event, e);
    }
  }

  /** A completa takes the row of its key. */
  lemma CompletaIsStored(db: Db, e: Event, now: Time) returns (i: nat)
    requires KeysUnique(db.events) && e.completeness.Completa?
    ensures var r := ApplyEvent(db, e, now);
            && i < |r.events| && r.events[i].event == e.(sentByNanci := r.events[i].event.sentByNanci)
  {
    hide NfeStore.RefreshChave, UpsertEvent, EventsOf;
    var stored := db.(events := UpsertEvent(db.events, e, now));
    UpsertRows(db.events, e, now);
    RefreshFrame(stored, e.chave);
    i := |db.events|;
    if HasEvent(db.events, e) {
      i :| 0 <= i < |db.events| && SameKey(db.events[i].event, e);
    }
    assert ApplyEvent(db, e, now).events[i].event == stored.events[i].event;
  }

  /** 135 and 136: the event is in the table. 573: it was, and nothing changes, or it is now. */
  lemma RegisteredOrDuplicate(db: Db, act: Act)
    requires Consistent(db) && Sends(db, act) && act.stored
    requires act.answer.Answered? && act.answer.cStat in {135, 136, 573}
    ensures var r, cnpj := Perform(db, act), db.companies[act.company];
            if act.answer.cStat == 573 && HoldsKey(db, act.chave, act.tipo) then SameTables(r, db)
            else HoldsSent(r, cnpj, act.chave, act.tipo)
  {
    hide Consistent, PlanBlock, ApplyEvent, ManifestacaoEvent;
    KeepsNeeds(db, act);
    SentEvent(db, act);
    var item := Record(db, act.company, act.chave, act.tipo, act.answer, act.now);
    var logged := db.(manifestacoes := db.manifestacoes + [item]);
    var i := CompletaIsStored(logged, ManifestacaoEvent(item), act.now.at);
  }

  /** Any other cStat, and no answer at all, change nothing but the log. */
  lemma RefusedChangesNothing(db: Db, act: Act)
    requires Sends(db, act) && act.stored
    requires act.answer.Answered? ==> act.answer.cStat !in {135, 136, 573}
    ensures SameTables(Perform(db, act), db)
    ensures forall company, chave :: View(Perform(db, act), company, chave) == View(db, company, chave)
  {
    hide ApplyEvent, ManifestacaoEvent;
  }

  lemma LogOfApply(db: Db, e: Event, now: Time)
    ensures ApplyEvent(db, e, now).manifestacoes == db.manifestacoes
  {
  }

  /** Every recorded answer leaves one row in the log, with the status its cStat means. */
  lemma AnswerIsLogged(db: Db, act: Act)
    requires Sends(db, act) && act.stored
    ensures var log := Perform(db, act).manifestacoes;
            && |log| == |db.manifestacoes| + 1 && db.manifestacoes <= log
            && var item := log[|db.manifestacoes|];
               && item.company == act.company && item.chave == act.chave && item.nSeqEvento == 1
               && (item.status.Registrada? <==> act.answer.Answered? && act.answer.cStat in {135, 136})
               && (item.status.JaRegistrada? <==> act.answer.Answered? && act.answer.cStat == 573)
               && (item.status.Erro? <==> act.answer.NoAnswer?)
  {
    hide ApplyEvent, ManifestacaoEvent, PlanBlock;
    var item := Record(db, act.company, act.chave, act.tipo, act.answer, act.now);
    var logged := db.(manifestacoes := db.manifestacoes + [item]);
    LogOfApply(logged, ManifestacaoEvent(item), act.now.at);
  }

  // ----- what the company is shown then -----

  predicate ShowsTipo(m: Manifestacao, tipo: Tipo) {
    match tipo
    case TipoCiencia => m.SoCiencia?
    case TipoConfirmacao => m.Confirmada?
    case TipoDesconhecimento => m.Desconhecida?
    case TipoNaoRealizada => m.OperacaoNaoRealizada?
  }

  /** The first event of a company that counts decides what it is shown. */
  lemma FirstEventDecides(before: seq<Event>, after: seq<Event>, e: Event, cnpj: Cnpj, chave: Chave, tipo: Tipo)
    requires forall x :: x in after <==> x in before || x == e
    requires cnpj != "" && IsSent(e, cnpj, chave, tipo)
    requires !ManifestacaoOf(before, cnpj).0.Conclusive()
    ensures ShowsTipo(ManifestacaoOf(after, cnpj).0, tipo)
  {
    hide ManifestacaoOf, Deciding, EarliestCiencia, Decides, DecidedBy;
    NotConclusive(before, cnpj);
    ShownState(after, cnpj);
    assert e in after && Counts(e, cnpj);
    if tipo.Conclusive() {
      OnlyOneDecides(after, e, cnpj);
    } else {
      assert CountsCiencia(e, cnpj);
    }
  }

  lemma NotConclusive(events: seq<Event>, cnpj: Cnpj)
    requires !ManifestacaoOf(events, cnpj).0.Conclusive()
    ensures forall e :: e in events ==> !CountsConclusive(e, cnpj)
  {
    DecidingIsLatest(events, cnpj);
  }

  lemma OnlyOneDecides(events: seq<Event>, e: Event, cnpj: Cnpj)
    requires e in events && CountsConclusive(e, cnpj)
    requires forall x :: x in events && CountsConclusive(x, cnpj) ==> x == e
    ensures DecidedBy(events, cnpj, e.kind)
  {
    var i := DecidingDecides(events, cnpj);
    var j :| 0 <= j < |events| && events[j] == e;
    assert CountsConclusive(events[j], cnpj);
    assert Decides(events, cnpj, i) && events[i] in events;
  }

  /** The key of an open plan is not in the table yet: its row would block the plan. */
  lemma OpenPlanHasNoRow(db: Db, act: Act)
    requires Consistent(db) && Legal(db, act) && Sends(db, act) && act.stored && db.companies[act.company] != ""
    ensures !HoldsKey(db, act.chave, act.tipo)
    ensures Sees(db, act.company, act.chave)
    ensures !ManifestacaoOf(EventsOf(db.events, act.chave), db.companies[act.company]).0.Conclusive()
  {
    hide Consistent, EventsOf, ManifestacaoOf, ManifestacaoBlock;
    var cnpj, events := db.companies[act.company], EventsOf(db.events, act.chave);
    var e := ManifestacaoEvent(Record(db, act.company, act.chave, act.tipo, act.answer, act.now));
    DerivedShows(db, act.company, act.chave);
    SentEvent(db, act);
    EventMembers(db.events, act.chave);
    if HoldsKey(db, act.chave, act.tipo) {
      var i :| 0 <= i < |db.events| && SameKey(db.events[i].event, e);
      assert e in EventsWritten(db, act);
      var earlier := db.events[i].event;
      assert earlier in events && SameSubject(earlier, e);
      StoredShows(events, earlier, cnpj, act.tipo);
    }
  }

  lemma StoredShows(events: seq<Event>, e: Event, cnpj: Cnpj, tipo: Tipo)
    requires e in events && Counts(e, cnpj)
    ensures IsConclusive(e.kind) ==> ManifestacaoOf(events, cnpj).0.Conclusive()
    ensures e.kind.Ciencia? ==> ManifestacaoOf(events, cnpj).0 != Nenhuma
  {
    DecidingIsLatest(events, cnpj);
    EarliestIsEarliest(events, cnpj);
  }

  /**
   A manifestação that the plan let through, answered with 135, 136 or 573 and recorded, is what the company
   is shown from then on.
   */
  lemma SentManifestacaoShows(db: Db, act: Act)
    requires Consistent(db) && Legal(db, act) && Sends(db, act) && act.stored && db.companies[act.company] != ""
    requires act.answer.Answered? && act.answer.cStat in {135, 136, 573}
    ensures var view := View(Perform(db, act), act.company, act.chave);
            view.Some? && ShowsTipo(view.value.manifestacao, act.tipo)
  {
    hide Consistent, EventsOf, ManifestacaoOf, PlanBlock, Legal, ApplyEvent, ManifestacaoEvent, HoldsKey, IsSent;
    var item := Record(db, act.company, act.chave, act.tipo, act.answer, act.now);
    var e, logged, cnpj := ManifestacaoEvent(item), db.(manifestacoes := db.manifestacoes + [item]),
      db.companies[act.company];
    OpenPlanHasNoRow(db, act);
    SentEvent(db, act);
    KeepsNeeds(db, act);
    NewEventListed(logged, e, act.now.at);
    PerformInvariant(db, act);
    PerformKeeps(db, act, act.company, act.chave);
    DerivedShows(Perform(db, act), act.company, act.chave);
    FirstEventDecides(EventsOf(db.events, act.chave), EventsOf(Perform(db, act).events, act.chave), e, cnpj, act.chave,
                      act.tipo);
  }

  lemma NewEventListed(db: Db, e: Event, now: Time)
    requires KeysUnique(db.events) && !HasEvent(db.events, e)
    ensures forall x :: x in EventsOf(ApplyEvent(db, e, now).events, e.chave)
                   <==> x in EventsOf(db.events, e.chave) || x == e
  {
    hide NfeStore.RefreshChave, UpsertEvent, EventsOf, HasEvent;
    var stored := db.(events := UpsertEvent(db.events, e, now));
    var after := ApplyEvent(db, e, now).events;
    UpsertRows(db.events, e, now);
    RefreshFrame(stored, e.chave);
    EventMembers(db.events, e.chave);
    EventMembers(after, e.chave);
    forall x
      ensures x in EventsOf(after, e.chave) <==> x in EventsOf(db.events, e.chave) || x == e
    {
      if x in EventsOf(db.events, e.chave) {
        var i :| 0 <= i < |db.events| && db.events[i].event == x && x.chave == e.chave;
        assert stored.events[i] == db.events[i] && after[i].event == x;
      }
      if x == e {
        assert after[|db.events|].event == stored.events[|db.events|].event == x;
      }
      if x in EventsOf(after, e.chave) {
        var i :| 0 <= i < |after| && after[i].event == x && x.chave == e.chave;
        assert stored.events[i].event == x;
      }
    }
  }
}
