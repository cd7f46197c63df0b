/**
 Merging the copies of one NF-e (internal/nfe/merge.go): the step, and what any sequence of arrivals
 leaves in the row.
 */
module NfeMerge {
  import opened Wrappers
  import opened NfeTypes

  function Severity(s: Situacao): nat {
    match s
    case Cancelada => 3
    case Denegada => 2
    case Autorizada => 1
  }

  function MoreSevere(a: Situacao, b: Situacao): Situacao {
    if Severity(b) > Severity(a) then b else a
  }

  function MergeDocument(existing: Document, incoming: Document): Document {
    var merged :=
      if existing.completeness.Completa? && incoming.completeness.Resumo? then
        existing.(authorizedAt := if existing.authorizedAt.None? then incoming.authorizedAt else existing.authorizedAt,
                  protocolo := if existing.protocolo == "" then incoming.protocolo else existing.protocolo,
                  resumoRawHash := incoming.rawHash)
      else
        incoming.(id := existing.id,
                  resumoRawHash :=
                    if existing.completeness.Resumo? && incoming.completeness.Completa? then existing.rawHash
                    else if incoming.resumoRawHash == "" then existing.resumoRawHash
                    else incoming.resumoRawHash);
    merged.(situacao := MoreSevere(existing.situacao, incoming.situacao))
  }

  /** The assignments of the source, on a local copy. */
  method MergeInto(existing: Document, incoming: Document) returns (merged: Document)
    ensures merged == MergeDocument(existing, incoming)
  {
    if existing.completeness.Completa? && incoming.completeness.Resumo? {
      merged := existing;
      if merged.authorizedAt == None {
        merged := merged.(authorizedAt := incoming.authorizedAt);
      }
      if merged.protocolo == "" {
        merged := merged.(protocolo := incoming.protocolo);
      }
      merged := merged.(resumoRawHash := incoming.rawHash);
    } else {
      merged := incoming;
      merged := merged.(id := existing.id);
      if existing.completeness.Resumo? && incoming.completeness.Completa? {
        merged := merged.(resumoRawHash := existing.rawHash);
      } else if merged.resumoRawHash == "" {
        merged := merged.(resumoRawHash := existing.resumoRawHash);
      }
    }
    merged := merged.(situacao := MoreSevere(existing.situacao, incoming.situacao));
  }

  // ----- any sequence of arrivals -----

  /** The row after the first copy is inserted and the others are merged in, in order. */
  function MergeAll(arrivals: seq<Document>): Document
    requires arrivals != []
  {
    var n := |arrivals| - 1;
    if n == 0 then arrivals[0] else MergeDocument(MergeAll(arrivals[..n]), arrivals[n])
  }

  /** Parsed copies carry no resumo hash; only the merge sets it. */
  predicate Parsed(arrivals: seq<Document>) {
    forall i :: 0 <= i < |arrivals| ==> arrivals[i].resumoRawHash == ""
  }

  function WorstSituacao(arrivals: seq<Document>): Situacao
    requires arrivals != []
  {
    var n := |arrivals| - 1;
    if n == 0 then arrivals[0].situacao else MoreSevere(WorstSituacao(arrivals[..n]), arrivals[n].situacao)
  }

  function LastOf(arrivals: seq<Document>, c: Completeness): (i: int)
    ensures -1 <= i < |arrivals|
    ensures i >= 0 ==> arrivals[i].completeness == c
    ensures forall j :: i < j < |arrivals| ==> arrivals[j].completeness != c
  {
    if arrivals == [] then -1
    else
      var n := |arrivals| - 1;
      if arrivals[n].completeness == c then n else LastOf(arrivals[..n], c)
  }

  function FirstAuthorizedFrom(arrivals: seq<Document>, i: nat): Option<Time>
    requires i <= |arrivals|
    decreases |arrivals| - i
  {
    if i == |arrivals| then None
    else if arrivals[i].authorizedAt.Some? then arrivals[i].authorizedAt
    else FirstAuthorizedFrom(arrivals, i + 1)
  }

  function FirstProtocoloFrom(arrivals: seq<Document>, i: nat): string
    requires i <= |arrivals|
    decreases |arrivals| - i
  {
    if i == |arrivals| then ""
    else if arrivals[i].protocolo != "" then arrivals[i].protocolo
    else FirstProtocoloFrom(arrivals, i + 1)
  }

  lemma {:induction false} FirstFromAppend(front: seq<Document>, d: Document, i: nat)
    requires i <= |front|
    ensures FirstAuthorizedFrom(front + [d], i)
         == if FirstAuthorizedFrom(front, i).Some? then FirstAuthorizedFrom(front, i) else d.authorizedAt
    ensures FirstProtocoloFrom(front + [d], i)
         == if FirstProtocoloFrom(front, i) != "" then FirstProtocoloFrom(front, i) else d.protocolo
    decreases |front| - i
  {
    if i < |front| {
      FirstFromAppend(front, d, i + 1);
    }
  }

  /**
   The row in closed form. The content is that of the last completa, or of the last resumo when no
   completa came. A completa lacking its authorization or protocol takes the first one known after
   it. The identifier is the first, the situação the worst, and the resumo hash of a completa that
   of the last resumo seen.
   */
  predicate ClosedForm(row: Document, arrivals: seq<Document>)
    requires arrivals != []
  {
    var c, r := LastOf(arrivals, Completa), LastOf(arrivals, Resumo);
    && row.id == arrivals[0].id
    && row.situacao == WorstSituacao(arrivals)
    && (c >= 0 ==>
          && row.completeness == Completa
          && row.body == arrivals[c].body && row.rawHash == arrivals[c].rawHash
          && row.authorizedAt == FirstAuthorizedFrom(arrivals, c)
          && row.protocolo == FirstProtocoloFrom(arrivals, c)
          && row.resumoRawHash == if r >= 0 then arrivals[r].rawHash else "")
    && (c < 0 ==>
          && row.completeness == Resumo && r == |arrivals| - 1
          && row == arrivals[r].(id := arrivals[0].id, situacao := row.situacao))
  }

  lemma {:induction false} MergeClosedForm(arrivals: seq<Document>)
    requires arrivals != [] && Parsed(arrivals)
    ensures ClosedForm(MergeAll(arrivals), arrivals)
  {
    var n := |arrivals| - 1;
    if n == 0 {
      OneCopy(arrivals);
    } else {
      hide ClosedForm, WorstSituacao;
      var front, d := arrivals[..n], arrivals[n];
      MergeClosedForm(front);
      assert arrivals == front + [d];
      if d.completeness.Completa? {
        CompletaMerged(MergeAll(front), front, d);
      } else {
        ResumoMerged(MergeAll(front), front, d);
      }
    }
  }

  lemma OneCopy(arrivals: seq<Document>)
    requires |arrivals| == 1 && Parsed(arrivals)
    ensures ClosedForm(arrivals[0], arrivals)
  {
    assert arrivals[..0] == [];
    if LastOf(arrivals, Completa) == 0 {
      assert FirstAuthorizedFrom(arrivals, 1) == None && FirstProtocoloFrom(arrivals, 1) == "";
    }
  }

  lemma LastAppend(front: seq<Document>, d: Document, c: Completeness)
    ensures LastOf(front + [d], c) == if d.completeness == c then |front| else LastOf(front, c)
  {
    assert (front + [d])[..|front|] == front;
  }

  lemma CompletaMerged(row: Document, front: seq<Document>, d: Document)
    requires front != [] && ClosedForm(row, front) && d.completeness.Completa? && d.resumoRawHash == ""
    ensures ClosedForm(MergeDocument(row, d), front + [d])
  {
    var all := front + [d];
    LastAppend(front, d, Completa);
    LastAppend(front, d, Resumo);
    assert all[..|front|] == front;
    assert FirstAuthorizedFrom(all, |all|) == None && FirstProtocoloFrom(all, |all|) == "";
  }

  lemma ResumoMerged(row: Document, front: seq<Document>, d: Document)
    requires front != [] && Parsed(front) && ClosedForm(row, front) && d.completeness.Resumo? && d.resumoRawHash == ""
    ensures ClosedForm(MergeDocument(row, d), front + [d])
  {
    var all := front + [d];
    LastAppend(front, d, Completa);
    LastAppend(front, d, Resumo);
    assert all[..|front|] == front;
    var c := LastOf(front, Completa);
    if c >= 0 {
      FirstFromAppend(front, d, c);
    }
  }

  /** The worst situação is one that arrived: cancelada if any copy was, autorizada only if every copy was. */
  lemma {:induction false} WorstIsWorst(arrivals: seq<Document>)
    requires arrivals != []
    ensures exists i :: 0 <= i < |arrivals| && arrivals[i].situacao == WorstSituacao(arrivals)
    ensures forall i :: 0 <= i < |arrivals| ==> Severity(arrivals[i].situacao) <= Severity(WorstSituacao(arrivals))
    ensures WorstSituacao(arrivals).Cancelada? <==> exists i :: 0 <= i < |arrivals| && arrivals[i].situacao.Cancelada?
    ensures WorstSituacao(arrivals).Autorizada? <==>
              forall i :: 0 <= i < |arrivals| ==> arrivals[i].situacao.Autorizada?
  {
    var n := |arrivals| - 1;
    if n == 0 {
      assert arrivals[0].situacao == WorstSituacao(arrivals);
    } else {
      WorstIsWorst(arrivals[..n]);
      var i :| 0 <= i < n && arrivals[..n][i].situacao == WorstSituacao(arrivals[..n]);
      assert arrivals[i].situacao == WorstSituacao(arrivals[..n]);
      assert arrivals[if Severity(arrivals[n].situacao) > Severity(arrivals[i].situacao) then n else i].situacao
          == WorstSituacao(arrivals);
    }
  }
}
