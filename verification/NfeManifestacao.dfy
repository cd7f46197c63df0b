/**
 The manifestação of one company, derived from a document's events
 (internal/nfe/manifestacao.go).
 */
module NfeManifestacao {
  import opened Wrappers
  import opened NfeTypes

  /** COALESCE(registered_at, event_at): the moment an event carries, if it carries one. */
  function StampOf(e: Event): Option<Moment> {
    if e.registeredAt.Some? then e.registeredAt else e.eventAt
  }

  function TimeOf(stamp: Option<Moment>): Time {
    if stamp.Some? then stamp.value.at else 0
  }

  function EventTime(e: Event): Time {
    TimeOf(StampOf(e))
  }

  predicate SameParty(company: Cnpj, party: Cnpj) {
    company != "" && company == party
  }

  /** Only registered events the company authored count. */
  predicate Counts(e: Event, company: Cnpj) {
    e.registered && SameParty(company, e.author)
  }

  predicate IsConclusive(kind: EventType) {
    kind.Confirmacao? || kind.Desconhecimento? || kind.NaoRealizada?
  }

  function StateOf(kind: EventType): (m: Manifestacao)
    requires IsConclusive(kind)
    ensures m.Conclusive()
  {
    match kind
    case Confirmacao => Confirmada
    case Desconhecimento => Desconhecida
    case NaoRealizada => OperacaoNaoRealizada
  }

  predicate CountsConclusive(e: Event, company: Cnpj) {
    Counts(e, company) && IsConclusive(e.kind)
  }

  predicate CountsCiencia(e: Event, company: Cnpj) {
    Counts(e, company) && e.kind.Ciencia?
  }

  function Known(t: Time): Option<Time> {
    if t == 0 then None else Some(t)
  }

  // ----- what the loop computes -----

  /** The conclusive event in force after events, if any. */
  function Deciding(events: seq<Event>, company: Cnpj): (r: Option<Event>)
    ensures r.Some? ==> CountsConclusive(r.value, company)
  {
    if events == [] then None
    else
      var before := Deciding(events[..|events| - 1], company);
      var e := events[|events| - 1];
      if CountsConclusive(e, company) && (before.None? || EventTime(e) >= EventTime(before.value)) then Some(e)
      else before
  }

  /** The time of the earliest ciência: None without ciência, 0 when no ciência has a known time. */
  function EarliestCiencia(events: seq<Event>, company: Cnpj): Option<Time> {
    if events == [] then None
    else
      var before := EarliestCiencia(events[..|events| - 1], company);
      var e := events[|events| - 1];
      if !CountsCiencia(e, company) then before
      else if before.None? || before.value == 0 || (EventTime(e) != 0 && EventTime(e) < before.value) then
        Some(EventTime(e))
      else before
  }

  function ManifestacaoOf(events: seq<Event>, company: Cnpj): (Manifestacao, Option<Time>) {
    match Deciding(events, company)
    case Some(e) => (StateOf(e.kind), Known(EventTime(e)))
    case None =>
      match EarliestCiencia(events, company)
      case Some(t) => (SoCiencia, Known(t))
      case None => (Nenhuma, None)
  }

  method ManifestacaoAndTimeFromEvents(events: seq<Event>, company: Cnpj)
    returns (result: Manifestacao, at: Option<Time>)
    ensures (result, at) == ManifestacaoOf(events, company)
    ensures result.Confirmada? <==> DecidedBy(events, company, Confirmacao)
    ensures result.Desconhecida? <==> DecidedBy(events, company, Desconhecimento)
    ensures result.OperacaoNaoRealizada? <==> DecidedBy(events, company, NaoRealizada)
  {
    hide DecidedBy, Decides;
    result := Nenhuma;
    var latestConclusive, earliestCiencia := 0, 0;
    var hasConclusive := false;

    for i := 0 to |events|
      invariant hasConclusive == Deciding(events[..i], company).Some?
      invariant hasConclusive ==>
        && latestConclusive == EventTime(Deciding(events[..i], company).value)
        && result == StateOf(Deciding(events[..i], company).value.kind)
      invariant !hasConclusive ==>
        result == if EarliestCiencia(events[..i], company).Some? then SoCiencia else Nenhuma
      invariant earliestCiencia == match EarliestCiencia(events[..i], company) case Some(t) => t case None => 0
    {
      var e := events[i];
      assert events[..i + 1][..i] == events[..i];
      if !e.registered || !SameParty(company, e.author) {
        continue;
      }
      if e.kind.Ciencia? {
        var t := EventTime(e);
        if earliestCiencia == 0 || (t != 0 && t < earliestCiencia) {
          earliestCiencia := t;
        }
        if !hasConclusive {
          result := SoCiencia;
        }
        continue;
      }
      if !IsConclusive(e.kind) {
        continue;
      }
      var t := EventTime(e);
      if !hasConclusive || t >= latestConclusive {
        result := StateOf(e.kind);
        latestConclusive := t;
        hasConclusive := true;
      }
    }
    assert events[..|events|] == events;

    var time := 0;
    if hasConclusive {
      time := latestConclusive;
    } else if result == SoCiencia {
      time := earliestCiencia;
    }
    at := if time == 0 then None else Some(time);
    ShownState(events, company);
  }

  /** Which events count, by their type numbers: any other type, a carta de correção included, changes nothing. */
  lemma TypesThatCount(e: Event, company: Cnpj)
    requires e.kind == EventTypeFromTpEvento(e.tpEvento)
    ensures CountsConclusive(e, company) <==>
              e.registered && company != "" && e.author == company && e.tpEvento in {210200, 210220, 210240}
    ensures CountsCiencia(e, company) <==>
              e.registered && company != "" && e.author == company && e.tpEvento == 210210
    ensures e.kind.CartaCorrecao? <==> e.tpEvento == 110110
  {
  }

  // ----- what it means -----

  /** events[i] is the latest counting conclusive event; ties go to the later one in the list. */
  predicate Decides(events: seq<Event>, company: Cnpj, i: int) {
    && 0 <= i < |events|
    && CountsConclusive(events[i], company)
    && forall j :: 0 <= j < |events| && CountsConclusive(events[j], company) ==>
         EventTime(events[j]) < EventTime(events[i]) || (EventTime(events[j]) == EventTime(events[i]) && j <= i)
  }

  /** The event in force is the one that decides, and one decides whenever any counts. */
  lemma {:induction false} DecidingDecides(events: seq<Event>, company: Cnpj) returns (i: int)
    ensures Deciding(events, company).Some? ==>
              Decides(events, company, i) && Deciding(events, company) == Some(events[i])
    ensures Deciding(events, company).None? ==>
              forall j :: 0 <= j < |events| ==> !CountsConclusive(events[j], company)
  {
    i := 0;
    if events != [] {
      var n := |events| - 1;
      i := DecidingDecides(events[..n], company);
      if Deciding(events, company) == Some(events[n]) && CountsConclusive(events[n], company)
         && Deciding(events, company) != Deciding(events[..n], company) {
        i := n;
      } else if CountsConclusive(events[n], company) && EventTime(events[n]) >= EventTime(events[i]) {
        i := n;
      }
    }
  }

  lemma DecidesUnique(events: seq<Event>, company: Cnpj, i: int)
    requires Decides(events, company, i)
    ensures Deciding(events, company) == Some(events[i])
  {
    var j := DecidingDecides(events, company);
  }

  /** The ciência time is the least known one, and is missing only when there is none. */
  lemma {:induction false} EarliestIsEarliest(events: seq<Event>, company: Cnpj)
    ensures EarliestCiencia(events, company).Some? <==> exists e :: e in events && CountsCiencia(e, company)
    ensures var r := EarliestCiencia(events, company);
            r.Some? ==>
              && (forall e :: e in events && CountsCiencia(e, company) && EventTime(e) != 0 ==>
                   0 != r.value <= EventTime(e))
              && exists e :: e in events && CountsCiencia(e, company) && EventTime(e) == r.value
  {
    if events != [] {
      var front, e := events[..|events| - 1], events[|events| - 1];
      assert events == front + [e];
      EarliestIsEarliest(front, company);
    }
  }

  /** The event in force is of this kind. */
  predicate DecidedBy(events: seq<Event>, company: Cnpj, kind: EventType) {
    exists i :: 0 <= i < |events| && Decides(events, company, i) && events[i].kind == kind
  }

  /** The state shown names the kind of the event in force; without one, whether the company has a ciência. */
  lemma ShownState(events: seq<Event>, company: Cnpj)
    ensures var m := ManifestacaoOf(events, company).0;
            && (m.Confirmada? <==> DecidedBy(events, company, Confirmacao))
            && (m.Desconhecida? <==> DecidedBy(events, company, Desconhecimento))
            && (m.OperacaoNaoRealizada? <==> DecidedBy(events, company, NaoRealizada))
            && (m.SoCiencia? <==> && (forall e :: e in events ==> !CountsConclusive(e, company))
                                  && exists e :: e in events && CountsCiencia(e, company))
  {
    var i := DecidingDecides(events, company);
    EarliestIsEarliest(events, company);
    if Deciding(events, company).Some? {
      assert Decides(events, company, i);
      assert CountsConclusive(events[i], company) && events[i] in events;
      forall j | Decides(events, company, j)
        ensures events[j] == events[i]
      {
        DecidesUnique(events, company, j);
      }
    }
  }

  /**
   The time shown is when SEFAZ registered the event in force, or else when it was declared; none when the
   event has neither, or has the zero time.
   */
  lemma ShownTime(events: seq<Event>, company: Cnpj, i: int)
    requires Decides(events, company, i)
    ensures var e, at := events[i], ManifestacaoOf(events, company).1;
            && (e.registeredAt.Some? && e.registeredAt.value.at > 0 ==> at == Some(e.registeredAt.value.at))
            && (e.registeredAt.None? && e.eventAt.Some? && e.eventAt.value.at > 0 ==> at == Some(e.eventAt.value.at))
            && (e.registeredAt.None? && e.eventAt.None? ==> at == None)
            && at != Some(0)
  {
    DecidesUnique(events, company, i);
  }

  // ----- order does not matter -----

  datatype Fact = Fact(kind: EventType, author: Cnpj, registered: bool, stamp: Option<Moment>)

  function FactOf(e: Event): Fact {
    Fact(e.kind, e.author, e.registered, StampOf(e))
  }

  function Facts(events: seq<Event>): set<Fact> {
    set e | e in events :: FactOf(e)
  }

  predicate ConclusiveFact(f: Fact, company: Cnpj) {
    f.registered && SameParty(company, f.author) && IsConclusive(f.kind)
  }

  /** No two conclusive events of different kinds share a time. */
  predicate DistinctConclusiveTimes(facts: set<Fact>, company: Cnpj) {
    forall f, g | f in facts && g in facts && ConclusiveFact(f, company) && ConclusiveFact(g, company) ::
      f.kind != g.kind ==> TimeOf(f.stamp) != TimeOf(g.stamp)
  }

  predicate IsLatest(events: seq<Event>, company: Cnpj, e: Event) {
    && e in events
    && CountsConclusive(e, company)
    && forall f :: f in events && CountsConclusive(f, company) ==> EventTime(f) <= EventTime(e)
  }

  lemma DecidingIsLatest(events: seq<Event>, company: Cnpj)
    ensures Deciding(events, company).Some? ==> IsLatest(events, company, Deciding(events, company).value)
    ensures Deciding(events, company).None? ==> forall e :: e in events ==> !CountsConclusive(e, company)
  {
    var i := DecidingDecides(events, company);
    if Deciding(events, company).Some? {
      forall f | f in events && CountsConclusive(f, company)
        ensures EventTime(f) <= EventTime(events[i])
      {
        var j :| 0 <= j < |events| && events[j] == f;
        assert CountsConclusive(events[j], company);
      }
    }
  }

  lemma WithFact(events: seq<Event>, fact: Fact) returns (e: Event)
    requires fact in Facts(events)
    ensures e in events && FactOf(e) == fact
  {
    e :| e in events && FactOf(e) == fact;
  }

  /** Adding events never undoes a conclusive manifestação, nor moves its time back. */
  lemma ConclusiveIsNeverUndone(events: seq<Event>, more: seq<Event>, company: Cnpj)
    requires Facts(events) <= Facts(more) && ManifestacaoOf(events, company).0.Conclusive()
    ensures ManifestacaoOf(more, company).0.Conclusive()
    ensures EventTime(Deciding(events, company).value) <= EventTime(Deciding(more, company).value)
  {
    DecidingIsLatest(events, company);
    DecidingIsLatest(more, company);
    var e := Deciding(events, company).value;
    assert FactOf(e) in Facts(events);
    var f := WithFact(more, FactOf(e));
    assert CountsConclusive(f, company);
  }

  lemma EarliestMovesBack(events: seq<Event>, more: seq<Event>, company: Cnpj)
    requires Facts(events) <= Facts(more) && EarliestCiencia(events, company).Some?
    ensures EarliestCiencia(more, company).Some?
    ensures EarliestCiencia(events, company).value != 0 ==>
              0 != EarliestCiencia(more, company).value <= EarliestCiencia(events, company).value
  {
    EarliestIsEarliest(events, company);
    EarliestIsEarliest(more, company);
    var e :| e in events && CountsCiencia(e, company) && EventTime(e) == EarliestCiencia(events, company).value;
    assert FactOf(e) in Facts(events);
    var f := WithFact(more, FactOf(e));
    assert CountsCiencia(f, company);
  }

  /** Lists with the same facts, in whatever order, give the same manifestação and time. */
  lemma OrderDoesNotMatter(a: seq<Event>, b: seq<Event>, company: Cnpj)
    requires Facts(a) == Facts(b) && DistinctConclusiveTimes(Facts(a), company)
    ensures ManifestacaoOf(a, company) == ManifestacaoOf(b, company)
  {
    if Deciding(a, company).Some? {
      ConclusiveIsNeverUndone(a, b, company);
      SameDecision(a, b, company);
    } else if Deciding(b, company).Some? {
      ConclusiveIsNeverUndone(b, a, company);
    } else {
      if EarliestCiencia(a, company).Some? { EarliestMovesBack(a, b, company); }
      if EarliestCiencia(b, company).Some? { EarliestMovesBack(b, a, company); }
    }
  }

  lemma SameDecision(a: seq<Event>, b: seq<Event>, company: Cnpj)
    requires Facts(a) == Facts(b) && DistinctConclusiveTimes(Facts(a), company)
    requires Deciding(a, company).Some? && Deciding(b, company).Some?
    ensures ManifestacaoOf(a, company) == ManifestacaoOf(b, company)
  {
    ConclusiveIsNeverUndone(a, b, company);
    ConclusiveIsNeverUndone(b, a, company);
    DecidingIsLatest(a, company);
    DecidingIsLatest(b, company);
    var e, f := Deciding(a, company).value, Deciding(b, company).value;
    assert FactOf(e) in Facts(a) && FactOf(f) in Facts(b);
    assert ConclusiveFact(FactOf(e), company) && ConclusiveFact(FactOf(f), company);
  }

  // ----- the assumption is exact -----

  /** Whichever of the latest conclusive events is listed last decides. */
  lemma LastOfTheLatestDecides(front: seq<Event>, company: Cnpj, e: Event)
    requires IsLatest(front + [e], company, e)
    ensures ManifestacaoOf(front + [e], company).0 == StateOf(e.kind)
  {
    var events := front + [e];
    assert events[..|events| - 1] == front;
    DecidingIsLatest(front, company);
    if Deciding(front, company).Some? {
      assert Deciding(front, company).value in events;
    }
  }

  lemma SameMembers(a: seq<Event>, b: seq<Event>)
    requires multiset(a) == multiset(b)
    ensures forall e :: e in a <==> e in b
  {
    forall e
      ensures e in a <==> e in b
    {
      assert e in multiset(a) <==> e in multiset(b);
    }
  }

  /** Any event of a list can be the last of some order of it. */
  lemma MovedLast(events: seq<Event>, e: Event) returns (front: seq<Event>)
    requires e in events
    ensures multiset(front + [e]) == multiset(events)
  {
    var i :| 0 <= i < |events| && events[i] == e;
    front := events[..i] + events[i + 1..];
    assert events == events[..i] + [e] + events[i + 1..];
  }

  /** The manifestação is the same for every order of the list. */
  ghost predicate OrderIrrelevant(events: seq<Event>, company: Cnpj) {
    forall order :: multiset(order) == multiset(events) ==>
      ManifestacaoOf(order, company).0 == ManifestacaoOf(events, company).0
  }

  /** The latest counting conclusive events are all of one kind. */
  predicate LatestAgree(events: seq<Event>, company: Cnpj) {
    forall e, f :: e in events && f in events && IsLatest(events, company, e) && IsLatest(events, company, f) ==>
      e.kind == f.kind
  }

  lemma OrderMattersExactlyOnTies(events: seq<Event>, company: Cnpj)
    ensures OrderIrrelevant(events, company) <==> LatestAgree(events, company)
  {
    if LatestAgree(events, company) {
      forall order | multiset(order) == multiset(events)
        ensures ManifestacaoOf(order, company).0 == ManifestacaoOf(events, company).0
      {
        OneKindOneState(events, order, company);
      }
    } else {
      var e, f :| e in events && f in events && IsLatest(events, company, e) && IsLatest(events, company, f)
                  && e.kind != f.kind;
      var first := MovedLast(events, e);
      var second := MovedLast(events, f);
      SameMembers(first + [e], events);
      SameMembers(second + [f], events);
      LastOfTheLatestDecides(first, company, e);
      LastOfTheLatestDecides(second, company, f);
    }
  }

  lemma OneKindOneState(events: seq<Event>, order: seq<Event>, company: Cnpj)
    requires multiset(order) == multiset(events) && LatestAgree(events, company)
    ensures ManifestacaoOf(order, company).0 == ManifestacaoOf(events, company).0
  {
    SameMembers(order, events);
    DecidingIsLatest(events, company);
    DecidingIsLatest(order, company);
    EarliestIsEarliest(events, company);
    EarliestIsEarliest(order, company);
    if Deciding(order, company).Some? {
      assert IsLatest(events, company, Deciding(order, company).value);
      assert Deciding(events, company).Some?;
    }
  }
}
