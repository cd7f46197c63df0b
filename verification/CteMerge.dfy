/**
 Merging the copies of one CT-e (internal/cte/merge.go), where autXML parties receive masked ones.
 */
module CteMerge {
  import opened NfeTypes
  import opened NfeMerge

  /** body stands for every field but the ones the merge looks at. */
  datatype CteDocument = CteDocument(id: string, maskedKeys: bool, situacao: Situacao, body: string)

  function MergeCte(existing: CteDocument, incoming: CteDocument): CteDocument {
    var merged := if incoming.maskedKeys && !existing.maskedKeys then existing else incoming;
    merged.(id := existing.id, situacao := MoreSevere(existing.situacao, incoming.situacao))
  }

  /** The assignments of the source, on a local copy. */
  method MergeCteInto(existing: CteDocument, incoming: CteDocument) returns (merged: CteDocument)
    ensures merged == MergeCte(existing, incoming)
  {
    merged := incoming;
    if incoming.maskedKeys && !existing.maskedKeys {
      merged := existing;
    }
    merged := merged.(id := existing.id);
    merged := merged.(situacao := MoreSevere(existing.situacao, incoming.situacao));
  }

  function MergeCtes(arrivals: seq<CteDocument>): CteDocument
    requires arrivals != []
  {
    var n := |arrivals| - 1;
    if n == 0 then arrivals[0] else MergeCte(MergeCtes(arrivals[..n]), arrivals[n])
  }

  function LastFull(arrivals: seq<CteDocument>): (i: int)
    ensures -1 <= i < |arrivals|
    ensures i >= 0 ==> !arrivals[i].maskedKeys
    ensures forall j :: i < j < |arrivals| ==> arrivals[j].maskedKeys
  {
    if arrivals == [] then -1
    else
      var n := |arrivals| - 1;
      if !arrivals[n].maskedKeys then n else LastFull(arrivals[..n])
  }

  /** The row holds the last full copy, or the last masked one when no full copy came. */
  lemma {:induction false} MergeCtesClosedForm(arrivals: seq<CteDocument>)
    requires arrivals != []
    ensures var row, full := MergeCtes(arrivals), LastFull(arrivals);
            var kept := arrivals[if full >= 0 then full else |arrivals| - 1];
            && row == kept.(id := arrivals[0].id, situacao := row.situacao)
            && (exists i :: 0 <= i < |arrivals| && arrivals[i].situacao == row.situacao)
            && (forall i :: 0 <= i < |arrivals| ==> Severity(arrivals[i].situacao) <= Severity(row.situacao))
            && (row.situacao.Cancelada? <==> exists i :: 0 <= i < |arrivals| && arrivals[i].situacao.Cancelada?)
            && (row.situacao.Autorizada? <==> forall i :: 0 <= i < |arrivals| ==> arrivals[i].situacao.Autorizada?)
  {
    var n := |arrivals| - 1;
    if n > 0 {
      var front := arrivals[..n];
      MergeCtesClosedForm(front);
      var i :| 0 <= i < n && front[i].situacao == MergeCtes(front).situacao;
      assert arrivals[i].situacao == MergeCtes(front).situacao;
    }
  }
}
