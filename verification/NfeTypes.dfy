/**
 The NF-e domain values of internal/nfe: documents, events and the states derived from them.

 Times are whole seconds after Go's zero time, so 0 is the zero time (IsZero); those of an event keep
 their UTC offset. CNPJs are carried already cleaned. Hashes and the document content other than the
 fields named here are opaque.
 */
module NfeTypes {
  import opened Wrappers

  type Time = nat
  type Chave = string
  type Cnpj = string
  type Hash = string

  /** An instant with its UTC offset in minutes: the database stores the text, offset included. */
  datatype Moment = Moment(at: Time, zone: int)

  datatype Situacao = Autorizada | Denegada | Cancelada

  datatype Completeness = Resumo | Completa

  datatype EventType =
    | Cancelamento
    | CartaCorrecao
    | Ciencia
    | Confirmacao
    | Desconhecimento
    | NaoRealizada
    | Unknown

  datatype Manifestacao = Nenhuma | SoCiencia | Confirmada | Desconhecida | OperacaoNaoRealizada {
    predicate Conclusive() {
      Confirmada? || Desconhecida? || OperacaoNaoRealizada?
    }
  }

  /** body stands for the fields MergeDocument copies as a block. */
  datatype Document = Document(
    id: string,
    completeness: Completeness,
    situacao: Situacao,
    authorizedAt: Option<Time>,
    protocolo: string,
    rawHash: Hash,
    resumoRawHash: Hash,
    body: string)

  datatype Event = Event(
    chave: Chave,
    tpEvento: nat,
    nSeqEvento: nat,
    kind: EventType,
    author: Cnpj,
    registered: bool,
    registeredAt: Option<Moment>,
    eventAt: Option<Moment>,
    completeness: Completeness,
    rawHash: Hash,
    sentByNanci: bool)

  function EventTypeFromTpEvento(tp: nat): EventType {
    if tp == 110111 || tp == 110112 then Cancelamento
    else if tp == 110110 then CartaCorrecao
    else if tp == 210210 then Ciencia
    else if tp == 210200 then Confirmacao
    else if tp == 210220 then Desconhecimento
    else if tp == 210240 then NaoRealizada
    else Unknown
  }
}
