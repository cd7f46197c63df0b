/**
 Ciência da Operação in bulk: splitting the requested chaves (internal/app/nfe_manifest.go), sending
 them in lotes and matching SEFAZ's answers back (internal/sefaz/evento.go).
 */
module NfeCiencia {
  import opened Wrappers
  import opened NfeTypes
  import opened NfeStore
  import opened NfeRepository
  import opened NfeHistory
  import opened NfeManifest
  import opened NfeAnswers
  import opened AccessKey

  datatype Reason = Invalid | Repeated | Refused(block: Block)

  datatype Skip = Skip(chave: string, reason: Reason)

  // ----- planChaves -----

  /** The distinct valid chaves, in the order they first appear. */
  function Firsts(raw: seq<string>): seq<Chave> {
    if raw == [] then []
    else
      var front := Firsts(raw[..|raw| - 1]);
      match ParseAccessKey(raw[|raw| - 1])
      case None => front
      case Some(chave) => if chave in front then front else front + [chave]
  }

  function Rejected(raw: seq<string>): seq<Skip> {
    if raw == [] then []
    else
      var rest, last := raw[..|raw| - 1], raw[|raw| - 1];
      match ParseAccessKey(last)
      case None => Rejected(rest) + [Skip(TrimSpace(last), Invalid)]
      case Some(chave) => if chave in Firsts(rest) then Rejected(rest) + [Skip(chave, Repeated)] else Rejected(rest)
  }

  function CienciaBlock(db: Db, company: CompanyId, chave: Chave): Option<Block> {
    PlanBlock(db, company, chave, TipoCiencia)
  }

  function Accepted(db: Db, company: CompanyId, chaves: seq<Chave>): seq<Chave> {
    if chaves == [] then []
    else
      var last := chaves[|chaves| - 1];
      Accepted(db, company, chaves[..|chaves| - 1]) + if CienciaBlock(db, company, last).None? then [last] else []
  }

  function RefusedOnes(db: Db, company: CompanyId, chaves: seq<Chave>): seq<Skip> {
    if chaves == [] then []
    else
      var last := chaves[|chaves| - 1];
      var block := CienciaBlock(db, company, last);
      RefusedOnes(db, company, chaves[..|chaves| - 1]) + if block.Some? then [Skip(last, Refused(block.value))] else []
  }

  method PlanChaves(repo: Repository, company: CompanyId, raw: seq<string>)
    returns (eligible: seq<Chave>, skipped: seq<Skip>)
    ensures eligible == Accepted(repo.Tables(), company, Firsts(raw))
    ensures skipped == Rejected(raw) + RefusedOnes(repo.Tables(), company, Firsts(raw))
  {
    var chaves: seq<Chave> := [];
    var seen: set<Chave> := {};
    skipped := [];
    for i := 0 to |raw|
      invariant chaves == Firsts(raw[..i]) && skipped == Rejected(raw[..i])
      invariant forall c :: c in seen <==> c in chaves
    {
      assert raw[..i + 1][..i] == raw[..i];
      var parsed := Parse(raw[i]);
      if parsed.None? {
        skipped := skipped + [Skip(TrimSpace(raw[i]), Invalid)];
        continue;
      }
      var chave := parsed.value;
      if chave in seen {
        skipped := skipped + [Skip(chave, Repeated)];
        continue;
      }
      seen := seen + {chave};
      chaves := chaves + [chave];
    }
    assert raw[..|raw|] == raw;

    eligible := [];
    var db := repo.Tables();
    for i := 0 to |chaves|
      invariant eligible == Accepted(db, company, chaves[..i])
      invariant skipped == Rejected(raw) + RefusedOnes(db, company, chaves[..i])
    {
      assert chaves[..i + 1][..i] == chaves[..i];
      var block := CienciaBlock(db, company, chaves[i]);
      if block.Some? {
        skipped := skipped + [Skip(chaves[i], Refused(block.value))];
        continue;
      }
      eligible := eligible + [chaves[i]];
    }
    assert chaves[..|chaves|] == chaves;
  }

  predicate Distinct(s: seq<Chave>) {
    forall i, j :: 0 <= i < j < |s| ==> s[i] != s[j]
  }

  predicate FirstOccurrence(raw: seq<string>, i: int)
    requires 0 <= i < |raw|
  {
    forall j :: 0 <= j < i ==> ParseAccessKey(raw[j]) != ParseAccessKey(raw[i])
  }

  lemma {:induction false} FirstsCount(raw: seq<string>)
    ensures Distinct(Firsts(raw)) && |Firsts(raw)| + |Rejected(raw)| == |raw|
  {
    if raw != [] {
      FirstsCount(raw[..|raw| - 1]);
    }
  }

  lemma {:induction false} FirstsMembers(raw: seq<string>)
    ensures forall i :: 0 <= i < |raw| && ParseAccessKey(raw[i]).Some? ==> ParseAccessKey(raw[i]).value in Firsts(raw)
    ensures forall c :: c in Firsts(raw) ==> exists i :: 0 <= i < |raw| && ParseAccessKey(raw[i]) == Some(c)
  {
    hide ParseAccessKey;
    if raw != [] {
      var n := |raw| - 1;
      var front := raw[..n];
      FirstsMembers(front);
      forall c | c in Firsts(raw)
        ensures exists i :: 0 <= i < |raw| && ParseAccessKey(raw[i]) == Some(c)
      {
        if c in Firsts(front) {
          var i :| 0 <= i < |front| && ParseAccessKey(front[i]) == Some(c);
          assert ParseAccessKey(raw[i]) == Some(c);
        } else {
          assert ParseAccessKey(raw[n]) == Some(c);
        }
      }
    }
  }

  lemma {:induction false} RejectedReasons(raw: seq<string>, i: int)
    requires 0 <= i < |raw|
    ensures ParseAccessKey(raw[i]).None? ==> Skip(TrimSpace(raw[i]), Invalid) in Rejected(raw)
    ensures ParseAccessKey(raw[i]).Some? && !FirstOccurrence(raw, i) ==>
              Skip(ParseAccessKey(raw[i]).value, Repeated) in Rejected(raw)
  {
    hide ParseAccessKey, TrimSpace;
    var n := |raw| - 1;
    var front := raw[..n];
    if i < n {
      assert front[i] == raw[i];
      assert FirstOccurrence(front, i) == FirstOccurrence(raw, i);
      RejectedReasons(front, i);
    } else if ParseAccessKey(raw[n]).Some? && !FirstOccurrence(raw, n) {
      var j :| 0 <= j < n && ParseAccessKey(raw[j]) == ParseAccessKey(raw[n]);
      FirstsMembers(front);
      assert ParseAccessKey(front[j]).value in Firsts(front);
    }
  }

  lemma {:induction false} AcceptedAre(db: Db, company: CompanyId, chaves: seq<Chave>)
    requires Distinct(chaves)
    ensures Distinct(Accepted(db, company, chaves))
    ensures |Accepted(db, company, chaves)| + |RefusedOnes(db, company, chaves)| == |chaves|
    ensures forall c :: c in Accepted(db, company, chaves) <==> c in chaves && CienciaBlock(db, company, c).None?
    ensures forall c, b :: Skip(c, Refused(b)) in RefusedOnes(db, company, chaves)
                      <==> c in chaves && CienciaBlock(db, company, c) == Some(b)
  {
    hide CienciaBlock;
    if chaves != [] {
      var n := |chaves| - 1;
      AcceptedAre(db, company, chaves[..n]);
      assert chaves == chaves[..n] + [chaves[n]];
      assert chaves[n] !in chaves[..n];
    }
  }

  /** Where the i-th entry ends: skipped for its own reason, or eligible when nothing blocks it. */
  predicate Accounted(db: Db, company: CompanyId, raw: seq<string>, i: int, eligible: seq<Chave>, skipped: seq<Skip>)
    requires 0 <= i < |raw|
  {
    match ParseAccessKey(raw[i])
    case None => Skip(TrimSpace(raw[i]), Invalid) in skipped
    case Some(c) =>
      if !FirstOccurrence(raw, i) then Skip(c, Repeated) in skipped
      else match PlanBlock(db, company, c, TipoCiencia)
        case None => c in eligible
        case Some(b) => Skip(c, Refused(b)) in skipped && c !in eligible
  }

  lemma CienciaPlan(db: Db, company: CompanyId)
    ensures forall c :: CienciaBlock(db, company, c) == PlanBlock(db, company, c, TipoCiencia)
  {
  }

  lemma EntryAccounted(db: Db, company: CompanyId, raw: seq<string>, i: int)
    requires 0 <= i < |raw|
    ensures Accounted(db, company, raw, i, Accepted(db, company, Firsts(raw)),
              Rejected(raw) + RefusedOnes(db, company, Firsts(raw)))
  {
    hide Accepted, RefusedOnes, Rejected, Firsts, CienciaBlock, ParseAccessKey, FirstOccurrence, TrimSpace;
    FirstsCount(raw);
    FirstsMembers(raw);
    AcceptedAre(db, company, Firsts(raw));
    RejectedReasons(raw, i);
    CienciaPlan(db, company);
  }

  /**
   Every requested entry ends in exactly one list: the counts add up, the eligible chaves are
   distinct and exactly the valid ones nothing blocks, and every other entry is skipped for its own
   reason.
   */
  lemma PlanPartitionsRequest(db: Db, company: CompanyId, raw: seq<string>)
    ensures var eligible := Accepted(db, company, Firsts(raw));
            var skipped := Rejected(raw) + RefusedOnes(db, company, Firsts(raw));
            && |eligible| + |skipped| == |raw| && Distinct(eligible)
            && (forall c :: c in eligible <==>
                  && PlanBlock(db, company, c, TipoCiencia).None?
                  && exists i :: 0 <= i < |raw| && ParseAccessKey(raw[i]) == Some(c))
            && (forall i :: 0 <= i < |raw| ==> Accounted(db, company, raw, i, eligible, skipped))
  {
    hide *;
    CienciaPlan(db, company);
    FirstsCount(raw);
    FirstsMembers(raw);
    AcceptedAre(db, company, Firsts(raw));
    forall i | 0 <= i < |raw| {
      EntryAccounted(db, company, raw, i);
    }
  }

  /** The duplicate check of a lote never fires on what planChaves accepted. */
  lemma EligibleKeysDistinct(db: Db, company: CompanyId, raw: seq<string>)
    ensures DistinctKeys(Accepted(db, company, Firsts(raw)))
  {
    var eligible := Accepted(db, company, Firsts(raw));
    PlanPartitionsRequest(db, company, raw);
    forall c | c in eligible
      ensures MatchKey(c) == c
    {
      var i :| 0 <= i < |raw| && ParseAccessKey(raw[i]) == Some(c);
      ParseIsIdempotent(raw[i]);
    }
  }

  // ----- matching the answers of a lote -----

  /** One retEvento of the answer. */
  datatype Ret = Ret(chNFe: string, tpEvento: nat, cStat: int, dhRegEvento: Option<Moment>)

  function MatchKey(chave: string): string {
    ToUpper(TrimSpace(chave))
  }

  predicate Names(ret: Ret, chave: Chave, tpEvento: nat) {
    MatchKey(ret.chNFe) == MatchKey(chave) && ret.tpEvento == tpEvento
  }

  /** A later answer replaces an earlier one, but a date that does not parse leaves the earlier date. */
  function Replace(before: Option<Ret>, ret: Ret): Ret {
    if ret.dhRegEvento.None? && before.Some? then ret.(dhRegEvento := before.value.dhRegEvento) else ret
  }

  /** What the answers in order leave for the chave. */
  function LastRet(rets: seq<Ret>, chave: Chave, tpEvento: nat): Option<Ret> {
    if rets == [] then None
    else
      var before := LastRet(rets[..|rets| - 1], chave, tpEvento);
      var last := rets[|rets| - 1];
      if Names(last, chave, tpEvento) then Some(Replace(before, last)) else before
  }

  /** The status is that of the last answer that names the evento, the date the last one that parsed. */
  lemma {:induction false} LastRetIsLast(rets: seq<Ret>, chave: Chave, tpEvento: nat, i: nat)
    requires i < |rets| && Names(rets[i], chave, tpEvento)
    ensures LastRet(rets, chave, tpEvento).Some?
    ensures (forall j :: i < j < |rets| ==> !Names(rets[j], chave, tpEvento)) ==>
              LastRet(rets, chave, tpEvento).value.(dhRegEvento := None) == rets[i].(dhRegEvento := None)
    ensures rets[i].dhRegEvento.Some? &&
            (forall j :: i < j < |rets| && Names(rets[j], chave, tpEvento) ==> rets[j].dhRegEvento.None?) ==>
              LastRet(rets, chave, tpEvento).value.dhRegEvento == rets[i].dhRegEvento
  {
    hide Names;
    var n := |rets| - 1;
    if i < n {
      assert rets[..n][i] == rets[i];
      LastRetIsLast(rets[..n], chave, tpEvento, i);
    }
  }

  predicate DistinctKeys(chaves: seq<Chave>) {
    forall i, j :: 0 <= i < j < |chaves| ==> MatchKey(chaves[i]) != MatchKey(chaves[j])
  }

  /** parseRetEnvEvento: results stay in the order of the eventos, each with its own answer. */
  method MatchAnswers(rets: seq<Ret>, chaves: seq<Chave>, tpEvento: nat) returns (results: seq<Option<Ret>>)
    requires DistinctKeys(chaves)
    ensures |results| == |chaves|
    ensures forall i :: 0 <= i < |chaves| ==> results[i] == LastRet(rets, chaves[i], tpEvento)
  {
    results := seq(|chaves|, i => None);
    var byKey: map<string, nat> := map[];
    for i := 0 to |chaves|
      invariant forall k :: k in byKey ==> byKey[k] < i && MatchKey(chaves[byKey[k]]) == k
      invariant forall j :: 0 <= j < i ==> MatchKey(chaves[j]) in byKey
    {
      byKey := byKey[MatchKey(chaves[i]) := i];
    }
    for n := 0 to |rets|
      invariant |results| == |chaves|
      invariant forall i :: 0 <= i < |chaves| ==> results[i] == LastRet(rets[..n], chaves[i], tpEvento)
    {
      assert rets[..n + 1][..n] == rets[..n];
      var ret := rets[n];
      var k := MatchKey(ret.chNFe);
      if ret.tpEvento == tpEvento && k in byKey {
        results := results[byKey[k] := Some(Replace(results[byKey[k]], ret))];
      }
    }
    assert rets[..|rets|] == rets;
  }

  // ----- RegisterCiencia -----

  const MAX_EVENTOS_POR_LOTE: nat := 20

  /** What comes back for one lote; stored is false when the answer could not be recorded. */
  datatype LoteAnswer = Failed(stored: bool) | Replied(rets: seq<Ret>, stored: bool)

  datatype OutcomeStatus = Recorded(status: Status) | NaoEnviada

  datatype EventOutcome = EventOutcome(chave: Chave, status: OutcomeStatus)

  function Interrupts(answer: LoteAnswer): bool {
    answer.Failed? || !answer.stored
  }

  function AnswerOf(ret: Option<Ret>): Answer {
    match ret
    case None => Answered(0, None)
    case Some(r) => Answered(r.cStat, r.dhRegEvento)
  }

  /** The outcome reported for the i-th evento of a lote. */
  function OutcomeOf(answer: LoteAnswer, tipo: Tipo, chave: Chave): EventOutcome {
    match answer
    case Failed(_) => EventOutcome(chave, NaoEnviada)
    case Replied(_, _) => EventOutcome(chave, Recorded(StatusOf(AnswerFor(answer, tipo, chave))))
  }

  /** The answer to one evento of a lote. */
  function AnswerFor(answer: LoteAnswer, tipo: Tipo, chave: Chave): Answer {
    match answer
    case Failed(_) => NoAnswer
    case Replied(rets, _) => AnswerOf(LastRet(rets, chave, TpEvento(tipo)))
  }

  /** 135 and 136 register, 573 did before; anything else, and an evento the answer does not name, is rejected. */
  predicate ReportsCStat(o: EventOutcome, ret: Option<Ret>) {
    && (o.status == Recorded(Registrada) <==> ret.Some? && ret.value.cStat in {135, 136})
    && (o.status == Recorded(JaRegistrada) <==> ret.Some? && ret.value.cStat == 573)
    && (o.status == Recorded(Rejeitada) <==> ret.None? || ret.value.cStat !in {135, 136, 573})
  }

  lemma OutcomeByCStat(answer: LoteAnswer, tipo: Tipo, chave: Chave)
    requires answer.Replied?
    ensures ReportsCStat(OutcomeOf(answer, tipo, chave), LastRet(answer.rets, chave, TpEvento(tipo)))
  {
  }

  predicate GoodLote(lote: seq<Chave>) {
    1 <= |lote| <= 20 && DistinctKeys(lote)
  }

  function NotSent(lote: seq<Chave>): seq<EventOutcome> {
    seq(|lote|, i requires 0 <= i < |lote| => EventOutcome(lote[i], NaoEnviada))
  }

  /** EnviarEventos refuses a lote that is empty, too long or repeats an evento. */
  method CheckLote(lote: seq<Chave>) returns (ok: bool)
    ensures ok <==> GoodLote(lote)
  {
    hide MatchKey;
    if |lote| == 0 || |lote| > MAX_EVENTOS_POR_LOTE {
      return false;
    }
    var seen: set<string> := {};
    for i := 0 to |lote|
      invariant DistinctKeys(lote[..i])
      invariant forall k :: k in seen <==> exists j :: 0 <= j < i && MatchKey(lote[j]) == k
    {
      if MatchKey(lote[i]) in seen {
        return false;
      }
      seen := seen + {MatchKey(lote[i])};
    }
    assert lote[..|lote|] == lote;
    return true;
  }

  /** A lote that is refused or gets no answer counts as one that failed. */
  function Effective(lote: seq<Chave>, answer: LoteAnswer): LoteAnswer {
    if GoodLote(lote) then answer else Failed(answer.stored)
  }

  function RecordsOf(db: Db, company: CompanyId, tipo: Tipo, lote: seq<Chave>, answer: LoteAnswer,
                     now: Moment): seq<ManifestacaoRecord>
    requires company in db.companies
  {
    seq(|lote|, i requires 0 <= i < |lote| => Record(db, company, lote[i], tipo, AnswerFor(answer, tipo, lote[i]), now))
  }

  /** The tables after a lote: one record per evento, in order, or nothing when they could not be stored. */
  function AfterLote(db: Db, company: CompanyId, tipo: Tipo, lote: seq<Chave>, answer: LoteAnswer, now: Moment): Db
    requires company in db.companies
  {
    if answer.stored then RecordAll(db, RecordsOf(db, company, tipo, lote, Effective(lote, answer), now), now.at)
    else db
  }

  /** Sends one lote and records it; the outcomes come back whatever happened. */
  method Send(repo: Repository, company: CompanyId, tipo: Tipo, lote: seq<Chave>, answer: LoteAnswer, now: Moment)
    returns (outcomes: seq<EventOutcome>, interrupted: bool)
    requires Consistent(repo.Tables()) && company in repo.companies
    modifies repo
    ensures Consistent(repo.Tables()) && company in repo.companies
    ensures repo.Tables() == AfterLote(old(repo.Tables()), company, tipo, lote, answer, now)
    ensures interrupted <==> Interrupts(Effective(lote, answer))
    ensures |outcomes| == |lote| && forall i :: 0 <= i < |lote| ==>
              outcomes[i] == OutcomeOf(Effective(lote, answer), tipo, lote[i])
    ensures GoodLote(lote) && answer.Replied? ==> forall i :: 0 <= i < |lote| ==>
              ReportsCStat(outcomes[i], LastRet(answer.rets, lote[i], TpEvento(tipo)))
  {
    hide ReportsCStat, Consistent;
    var sent := CheckLote(lote);
    ghost var before := repo.Tables();
    var cnpj := repo.companies[company];
    var answers: seq<Answer> := seq(|lote|, i => NoAnswer);
    if sent && answer.Replied? {
      var results := MatchAnswers(answer.rets, lote, TpEvento(tipo));
      answers := seq(|lote|, i requires 0 <= i < |lote| => AnswerOf(results[i]));
      outcomes := seq(|lote|, i requires 0 <= i < |lote| => EventOutcome(lote[i], Recorded(StatusOf(answers[i]))));
      interrupted := !answer.stored;
      forall i | 0 <= i < |lote|
        ensures ReportsCStat(outcomes[i], LastRet(answer.rets, lote[i], TpEvento(tipo)))
      {
        OutcomeByCStat(answer, tipo, lote[i]);
      }
    } else {
      outcomes, interrupted := NotSent(lote), true;
    }
    if answer.stored {
      var records := seq(|lote|, i requires 0 <= i < |lote| =>
        ManifestacaoRecord(company, cnpj, lote[i], TpEvento(tipo), 1, StatusOf(answers[i]), now,
                           if answers[i].Answered? then answers[i].dhRegEvento else None, ""));
      assert records == RecordsOf(before, company, tipo, lote, Effective(lote, answer), now);
      RecordAllKeepsCompanies(before, records, now.at);
      repo.RecordManifestacoes(records, now.at);
    }
  }

  lemma {:induction false} RecordAllKeepsCompanies(db: Db, items: seq<ManifestacaoRecord>, now: Time)
    ensures RecordAll(db, items, now).companies == db.companies
  {
    if items != [] {
      RecordAllKeepsCompanies(db, items[..|items| - 1], now);
    }
  }

  /** The k-th lote of at most 20 chaves. */
  function LoteAt(chaves: seq<Chave>, k: nat): seq<Chave> {
    var start, end := k * MAX_EVENTOS_POR_LOTE, (k + 1) * MAX_EVENTOS_POR_LOTE;
    if start > |chaves| then [] else if end > |chaves| then chaves[start..] else chaves[start..end]
  }

  /** The tables after the first k lotes. */
  function AfterLotes(db: Db, company: CompanyId, chaves: seq<Chave>, answers: nat -> LoteAnswer, k: nat,
                      now: Moment): (after: Db)
    requires company in db.companies
    ensures after.companies == db.companies
  {
    if k == 0 then db
    else
      var before := AfterLotes(db, company, chaves, answers, k - 1, now);
      var records := RecordsOf(before, company, TipoCiencia, LoteAt(chaves, k - 1),
        Effective(LoteAt(chaves, k - 1), answers(k - 1)), now);
      RecordAllKeepsCompanies(before, records, now.at);
      AfterLote(before, company, TipoCiencia, LoteAt(chaves, k - 1), answers(k - 1), now)
  }

  lemma AfterNoLotes(db: Db, company: CompanyId, chaves: seq<Chave>, answers: nat -> LoteAnswer, now: Moment)
    requires company in db.companies
    ensures AfterLotes(db, company, chaves, answers, 0, now) == db
  {
  }

  lemma AfterOneMore(db: Db, company: CompanyId, chaves: seq<Chave>, answers: nat -> LoteAnswer, k: nat, now: Moment)
    requires company in db.companies
    ensures AfterLotes(db, company, chaves, answers, k + 1, now)
         == AfterLote(AfterLotes(db, company, chaves, answers, k, now), company, TipoCiencia, LoteAt(chaves, k),
           answers(k), now)
  {
  }

  lemma LoteIsGood(chaves: seq<Chave>, k: nat)
    requires DistinctKeys(chaves) && k * MAX_EVENTOS_POR_LOTE < |chaves|
    ensures GoodLote(LoteAt(chaves, k))
  {
    var start := k * MAX_EVENTOS_POR_LOTE;
    var lote := LoteAt(chaves, k);
    forall i, j | 0 <= i < j < |lote|
      ensures MatchKey(lote[i]) != MatchKey(lote[j])
    {
      assert lote[i] == chaves[start + i] && lote[j] == chaves[start + j];
    }
  }

  function CienciaOutcome(eligible: seq<Chave>, answers: nat -> LoteAnswer, lotesSent: nat, i: nat): EventOutcome
    requires i < |eligible|
  {
    if i < lotesSent * MAX_EVENTOS_POR_LOTE then OutcomeOf(answers(i / MAX_EVENTOS_POR_LOTE), TipoCiencia, eligible[i])
    else EventOutcome(eligible[i], NaoEnviada)
  }

  predicate Reported(outcomes: seq<EventOutcome>, eligible: seq<Chave>, answers: nat -> LoteAnswer, lotesSent: nat) {
    && |outcomes| <= |eligible|
    && forall i :: 0 <= i < |outcomes| ==> outcomes[i] == CienciaOutcome(eligible, answers, lotesSent, i)
  }

  lemma SentReported(outcomes: seq<EventOutcome>, more: seq<EventOutcome>, eligible: seq<Chave>,
                     answers: nat -> LoteAnswer, k: nat)
    requires |outcomes| == k * MAX_EVENTOS_POR_LOTE < |eligible| && Reported(outcomes, eligible, answers, k)
    requires |more| == |LoteAt(eligible, k)|
    requires forall i :: 0 <= i < |more| ==> more[i] == OutcomeOf(answers(k), TipoCiencia, LoteAt(eligible, k)[i])
    ensures Reported(outcomes + more, eligible, answers, k + 1)
  {
    hide OutcomeOf;
    var all := outcomes + more;
    forall i | 0 <= i < |all|
      ensures all[i] == CienciaOutcome(eligible, answers, k + 1, i)
    {
      if i < |outcomes| {
        assert all[i] == outcomes[i];
      } else {
        assert i / MAX_EVENTOS_POR_LOTE == k && LoteAt(eligible, k)[i - |outcomes|] == eligible[i];
      }
    }
  }

  lemma NotSentReported(outcomes: seq<EventOutcome>, lote: seq<Chave>, eligible: seq<Chave>,
                        answers: nat -> LoteAnswer, k: nat)
    requires Reported(outcomes, eligible, answers, k) && k * MAX_EVENTOS_POR_LOTE <= |outcomes|
    requires |outcomes| + |lote| <= |eligible| && lote == eligible[|outcomes|..|outcomes| + |lote|]
    ensures Reported(outcomes + NotSent(lote), eligible, answers, k)
  {
  }

  /**
   Sends the eligible chaves in lotes; answers(k) is what the k-th lote gets, if it is sent. One outcome
   per chave in the same order; after an interrupted lote nothing more is sent or recorded.
   */
  method RegisterCiencia(repo: Repository, company: CompanyId, eligible: seq<Chave>, answers: nat -> LoteAnswer,
                         now: Moment)
    returns (outcomes: seq<EventOutcome>, interrupted: bool, lotesSent: nat)
    requires Consistent(repo.Tables()) && company in repo.companies && DistinctKeys(eligible)
    modifies repo
    ensures Consistent(repo.Tables())
    ensures repo.Tables() == AfterLotes(old(repo.Tables()), company, eligible, answers, lotesSent, now)
    ensures |outcomes| == |eligible| && Reported(outcomes, eligible, answers, lotesSent)
    // Every lote sent before the last one was answered and recorded.
    ensures forall k :: 0 <= k < lotesSent - 1 ==> !Interrupts(answers(k))
    ensures interrupted <==> lotesSent > 0 && Interrupts(answers(lotesSent - 1))
    ensures !interrupted ==> |eligible| <= lotesSent * MAX_EVENTOS_POR_LOTE
    ensures lotesSent > 0 ==> (lotesSent - 1) * MAX_EVENTOS_POR_LOTE < |eligible|
  {
    hide Consistent, RecordAll, RecordsOf, AfterLote, OutcomeOf, DistinctKeys, GoodLote, MatchKey, Reported, AfterLotes;
    AfterNoLotes(repo.Tables(), company, eligible, answers, now);
    ReportedNothing(eligible, answers);
    outcomes, interrupted, lotesSent := [], false, 0;
    var start := 0;
    ghost var before := repo.Tables();
    while start < |eligible|
      invariant 0 <= start <= |eligible| && |outcomes| == start
      invariant !interrupted ==>
                  start == lotesSent * MAX_EVENTOS_POR_LOTE || start == |eligible| <= lotesSent * MAX_EVENTOS_POR_LOTE
      invariant interrupted ==> start == |eligible| || start >= lotesSent * MAX_EVENTOS_POR_LOTE
      invariant Consistent(repo.Tables())
      invariant repo.Tables() == AfterLotes(before, company, eligible, answers, lotesSent, now)
      invariant forall j :: 0 <= j < lotesSent - 1 ==> !Interrupts(answers(j))
      invariant interrupted <==> lotesSent > 0 && Interrupts(answers(lotesSent - 1))
      invariant lotesSent > 0 ==> (lotesSent - 1) * MAX_EVENTOS_POR_LOTE < |eligible|
      invariant Reported(outcomes, eligible, answers, lotesSent)
    {
      var end := if start + MAX_EVENTOS_POR_LOTE < |eligible| then start + MAX_EVENTOS_POR_LOTE else |eligible|;
      var lote := eligible[start..end];
      if !interrupted {
        assert lote == LoteAt(eligible, lotesSent);
        LoteIsGood(eligible, lotesSent);
        var loteOutcomes;
        loteOutcomes, interrupted := Send(repo, company, TipoCiencia, lote, answers(lotesSent), now);
        SentReported(outcomes, loteOutcomes, eligible, answers, lotesSent);
        AfterOneMore(before, company, eligible, answers, lotesSent, now);
        outcomes, lotesSent := outcomes + loteOutcomes, lotesSent + 1;
      } else {
        NotSentReported(outcomes, lote, eligible, answers, lotesSent);
        outcomes := outcomes + NotSent(lote);
      }
      start := end;
    }
  }

  lemma ReportedNothing(eligible: seq<Chave>, answers: nat -> LoteAnswer)
    ensures Reported([], eligible, answers, 0)
  {
  }

  // ----- RegisterManifestacao -----

  datatype Refusal = NotConclusive | Refuses(block: Block)

  /** One conclusive manifestação: refused by the plan, or sent alone and recorded. */
  method RegisterManifestacao(repo: Repository, company: CompanyId, chave: Chave, tipo: Tipo, answer: LoteAnswer,
                              now: Moment)
    returns (r: Result<EventOutcome, Refusal>)
    requires Consistent(repo.Tables()) && company in repo.companies
    modifies repo
    ensures Consistent(repo.Tables())
    ensures r.Ok? <==> tipo.Conclusive() && PlanBlock(old(repo.Tables()), company, chave, tipo).None?
    ensures r.Err? ==> repo.Tables() == old(repo.Tables())
    ensures r.Err? && tipo.Conclusive() ==>
              r.error.Refuses? && PlanBlock(old(repo.Tables()), company, chave, tipo) == Some(r.error.block)
    ensures r.Ok? ==> r.value == OutcomeOf(answer, tipo, chave)
    ensures r.Ok? ==>
              var act := Manifest(company, chave, tipo, AnswerFor(answer, tipo, chave), now, answer.stored);
              repo.Tables() == Perform(old(repo.Tables()), act)
    ensures r.Ok? && answer.Replied? ==> ReportsCStat(r.value, LastRet(answer.rets, chave, TpEvento(tipo)))
    // Registered now or before, and recorded: it is what the company is shown.
    ensures r.Ok? && r.value.status in {Recorded(Registrada), Recorded(JaRegistrada)} && answer.stored ==>
              var act := Manifest(company, chave, tipo, AnswerFor(answer, tipo, chave), now, true);
              Legal(old(repo.Tables()), act) && repo.companies[company] != "" ==>
                var view := View(repo.Tables(), company, chave);
                view.Some? && ShowsTipo(view.value.manifestacao, tipo)
  {
    hide Consistent, PlanBlock, OutcomeOf, RecordOne, AnswerFor, ReportsCStat, Legal, View, ShowsTipo;
    if !tipo.Conclusive() {
      return Err(NotConclusive);
    }
    var block := PlanBlock(repo.Tables(), company, chave, tipo);
    if block.Some? {
      return Err(Refuses(block.value));
    }
    OneEvento(repo.Tables(), company, chave, tipo, answer, now);
    if OutcomeOf(answer, tipo, chave).status in {Recorded(Registrada), Recorded(JaRegistrada)} {
      ReportedShows(repo.Tables(), company, chave, tipo, answer, now);
    }
    OneIsGood(chave);
    var outcomes, interrupted := Send(repo, company, tipo, [chave], answer, now);
    return Ok(outcomes[0]);
  }

  lemma OneIsGood(chave: Chave)
    ensures GoodLote([chave])
  {
  }

  /** An evento reported as registered, now or before, and recorded is what the company is shown. */
  lemma ReportedShows(db: Db, company: CompanyId, chave: Chave, tipo: Tipo, answer: LoteAnswer, now: Moment)
    requires Consistent(db) && company in db.companies && PlanBlock(db, company, chave, tipo).None?
    requires OutcomeOf(answer, tipo, chave).status in {Recorded(Registrada), Recorded(JaRegistrada)}
    ensures var act := Manifest(company, chave, tipo, AnswerFor(answer, tipo, chave), now, true);
            Legal(db, act) && db.companies[company] != "" ==>
              var view := View(Perform(db, act), company, chave);
              view.Some? && ShowsTipo(view.value.manifestacao, tipo)
  {
    hide Consistent, PlanBlock, Perform, Legal, ShowsTipo, View, LastRet;
    var act := Manifest(company, chave, tipo, AnswerFor(answer, tipo, chave), now, true);
    if Legal(db, act) && db.companies[company] != "" {
      OutcomeByCStat(answer, tipo, chave);
      SentManifestacaoShows(db, act);
    }
  }

  lemma OneEvento(db: Db, company: CompanyId, chave: Chave, tipo: Tipo, answer: LoteAnswer, now: Moment)
    requires company in db.companies
    ensures Effective([chave], answer) == answer
    ensures AfterLote(db, company, tipo, [chave], answer, now) ==
              if answer.stored then
                RecordOne(db, Record(db, company, chave, tipo, AnswerFor(answer, tipo, chave), now), now.at)
              else db
  {
    hide RecordOne, AnswerFor, Record;
    var record := Record(db, company, chave, tipo, AnswerFor(answer, tipo, chave), now);
    assert Effective([chave], answer) == answer;
    var records := RecordsOf(db, company, tipo, [chave], answer, now);
    assert records == [record];
    assert records[..0] == [];
    assert RecordAll(db, [], now.at) == db;
    assert RecordAll(db, records, now.at) == RecordOne(RecordAll(db, records[..0], now.at), record, now.at);
  }
}
