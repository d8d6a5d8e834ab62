/** Domain entities of the evaluation system, as values, and the outcomes
    of repository operations. A Java reference that may be null is an
    `Option` here: `None` stands for null. */
module Dominio {

  datatype Option<+T> = None | Some(value: T)

  /** The exceptions the repositories raise. */
  datatype Erro =
    | CampoExigidoNaoFornecido(campo: string)  // a mandatory argument was null
    | ParecerNaoEncontrado(parecer: string)    // no opinion has this id
    | RadocNaoEncontrado(radoc: string)        // no dossier has this id

  /** The result of a repository operation that returns nothing. */
  datatype Outcome = Pass | Fail(error: Erro)

  /** The result of a repository operation that returns a value. */
  datatype Result<+T> = Success(value: T) | Failure(error: Erro)

  /** A scalar field: a text payload that may be null, a boolean and a
      number. Unset payloads keep Java's defaults (false and 0). */
  datatype Valor = Valor(text: Option<string>, boolean: bool, number: real)

  /** A score: an attribute name and its value. */
  datatype Pontuacao = Pontuacao(atributo: string, valor: Valor)

  /** An activity-report entry: a type tag and named values. */
  datatype Relato = Relato(tipo: string, valores: map<string, Valor>)

  /** An evaluable item: either variant. Only the report entry carries the
      `tipo` field, which is what tells the two apart in a document. */
  datatype Avaliavel = AvPontuacao(pontuacao: Pontuacao) | AvRelato(relato: Relato)
  {
    predicate HasTipo() { AvRelato? }
  }

  /** A recorded change of an evaluable item. */
  datatype Nota = Nota(original: Avaliavel, novo: Avaliavel, justificativa: string)

  /** An opinion. */
  datatype Parecer = Parecer(
    id: string,
    resolucao: string,
    radocs: seq<string>,
    pontuacoes: seq<Pontuacao>,
    fundamentacao: string,
    notas: seq<Nota>)

  /** A dossier of activity reports for one base year. */
  datatype Radoc = Radoc(id: string, anoBase: int, relatos: seq<Relato>)

  /** A scoring rule; its bounds are single-precision numbers in the
      source and are only stored and read back here. */
  datatype Regra = Regra(
    variavel: string,
    tipo: int,
    descricao: string,
    valorMaximo: real,
    valorMinimo: real,
    expressao: string,
    entao: string,
    senao: string,
    tipoRelato: string,
    pontosPorItem: int,
    dependeDe: seq<string>)

  /** A resolution; the approval date is a timestamp. */
  datatype Resolucao = Resolucao(
    id: string,
    nome: string,
    descricao: string,
    dataAprovacao: int,
    regras: seq<Regra>)

  datatype Atributo = Atributo(nome: string, descricao: string, tipo: int)

  /** A type definition of report-entry fields. */
  datatype Tipo = Tipo(id: string, nome: string, descricao: string, atributos: set<Atributo>)
}
