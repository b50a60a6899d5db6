/** The logical-column table: for every logical field of the spreadsheets,
    the header names accepted for it (in priority order) and the positional
    fallback column (-1 when there is none). The table is fixed configuration;
    the lemmas below show it is well formed. */
module ColumnConfig {
  import opened Wrappers

  /** One entry: the accepted header names and the fallback column index. */
  datatype ColumnSpec = ColumnSpec(names: seq<string>, index: int)

  /** The logical keys, in the order the table declares them. */
  const KEYS: seq<string> := [
    "CLIENTE", "PASTA", "VENDEDOR", "DATA PAGAMENTO", "CATEGORIA", "STATUS PROJETO",
    "ID PROJETO", "O.S EMITIDA?", "TEMPO ELABORAÇÃO O.S", "TEMPO ELABORAÇÃO O.S CONTINUO",
    "OBSERVAÇÃO", "MATERIAL ENTREGUE P/ EQUIPE INSTALAÇÃO?", "EQUIPE INSTALAÇÃO",
    "STATUS INSTALAÇÃO", "OBSERVAÇÃO DA INSTALAÇÃO", "STATUS VISTORIA", "DATA SOLITAÇÃO VISTORIA",
    "DATA FINALIZAÇÃO CONF.", "DATA INSTALAÇÃO", "TEM INVERSOR", "PRAZO", "PARECER VISTORIA",
    "STATUS MEDIDOR", "STATUS APP", "DATA 2° SOLITAÇÃO VISTORIA", "PRIORIDADE", "DATA PROTOCOLO"
  ]

  /** The logical keys that belong to the project tab of the spreadsheets. */
  const PROJECT_TAB_KEYS: seq<string> := [
    "DATA FINALIZAÇÃO CONF.", "DATA INSTALAÇÃO", "TEM INVERSOR", "PRAZO", "PARECER VISTORIA",
    "STATUS MEDIDOR", "STATUS APP", "DATA 2° SOLITAÇÃO VISTORIA", "PRIORIDADE", "DATA PROTOCOLO"
  ]

  /** The table itself, keyed by logical field. */
  const COLUMN_CONFIG: map<string, ColumnSpec> := map[
    "CLIENTE" := ColumnSpec(["CLIENTE", "CLIENTE "], 1),
    "PASTA" := ColumnSpec(["PASTA"], 2),
    "VENDEDOR" := ColumnSpec(["VENDEDOR", "CONSULTOR"], 3),
    "DATA PAGAMENTO" := ColumnSpec(["DATA PAGAMENTO"], 5),
    "CATEGORIA" := ColumnSpec(["CATEGORIA"], 6),
    "STATUS PROJETO" := ColumnSpec(["STATUS PROJETO"], 10),
    "ID PROJETO" := ColumnSpec(["ID PROJETO"], -1),
    "O.S EMITIDA?" := ColumnSpec(["O.S EMITIDA?", "O.S. EMITIDA?"], 13),
    "TEMPO ELABORAÇÃO O.S" := ColumnSpec(["TEMPO ELABORAÇÃO O.S"], 14),
    "TEMPO ELABORAÇÃO O.S CONTINUO" := ColumnSpec(["TEMPO ELABORAÇÃO O.S CONTINUO"], 15),
    "OBSERVAÇÃO" := ColumnSpec(["OBSERVAÇÃO", "OBSERVACAO"], 17),
    "MATERIAL ENTREGUE P/ EQUIPE INSTALAÇÃO?" :=
      ColumnSpec(["MATERIAL ENTREGUE P/ EQUIPE INSTALAÇÃO?", "MATERIAL ENTREGUE?"], 18),
    "EQUIPE INSTALAÇÃO" := ColumnSpec(["EQUIPE INSTALAÇÃO"], 35),
    "STATUS INSTALAÇÃO" := ColumnSpec(["STATUS INSTALAÇÃO"], 36),
    "OBSERVAÇÃO DA INSTALAÇÃO" := ColumnSpec(["OBSERVAÇÃO DA INSTALAÇÃO", "OBSERVAÇÃO_2"], 37),
    "STATUS VISTORIA" := ColumnSpec(["STATUS VISTORIA"], 38),
    "DATA SOLITAÇÃO VISTORIA" := ColumnSpec(["DATA SOLITAÇÃO VISTORIA", "DATA VISTORIA"], 41),
    "DATA FINALIZAÇÃO CONF." := ColumnSpec(
      ["DATA FINALIZAÇÃO CONF.", "DATA FINALIZACAO CONF.", "DATA FINALIZAÇÃO CONF", "STATUS CONF. DOC."], -1),
    "DATA INSTALAÇÃO" := ColumnSpec(["DATA INSTALAÇÃO", "DATA INSTALACAO", "DATA INICIAL OBRA"], -1),
    "TEM INVERSOR" := ColumnSpec(["TEM INVERSOR"], -1),
    "PRAZO" := ColumnSpec(["PRAZO"], -1),
    "PARECER VISTORIA" := ColumnSpec(["PARECER VISTORIA", "PARECER ENERGISA"], -1),
    "STATUS MEDIDOR" := ColumnSpec(["STATUS MEDIDOR"], -1),
    "STATUS APP" := ColumnSpec(["STATUS APP"], -1),
    "DATA 2° SOLITAÇÃO VISTORIA" := ColumnSpec(["DATA 2° SOLITAÇÃO VISTORIA", "DATA 2 SOLICITACAO VISTORIA"], -1),
    "PRIORIDADE" := ColumnSpec(["PRIORIDADE"], -1),
    "DATA PROTOCOLO" := ColumnSpec(["DATA PROTOCOLO"], -1)
  ]

  /** The declared key order lists exactly the keys of the table. */
  lemma KeysAreTheTable()
    ensures forall k :: k in COLUMN_CONFIG <==> k in KEYS
  {
  }

  /** Every entry accepts at least one name, and the first one is its own key. */
  lemma FirstNameIsKey()
    ensures forall k :: k in COLUMN_CONFIG ==> |COLUMN_CONFIG[k].names| > 0 && COLUMN_CONFIG[k].names[0] == k
  {
  }

  /** Every fallback index is -1 (no positional fallback) or a column number. */
  lemma FallbackIndexWellFormed()
    ensures forall k :: k in COLUMN_CONFIG ==> COLUMN_CONFIG[k].index >= -1
  {
  }

  /** The project-tab fields and the project id have no positional fallback. */
  lemma ProjectTabHasNoFallback()
    ensures "ID PROJETO" in COLUMN_CONFIG && COLUMN_CONFIG["ID PROJETO"].index == -1
    ensures forall k :: k in PROJECT_TAB_KEYS ==> k in COLUMN_CONFIG && COLUMN_CONFIG[k].index == -1
  {
  }

  /** The logical field whose fallback is column `i`, if any. */
  function FieldAt(i: int): Option<string> {
    match i
    case 1 => Some("CLIENTE")
    case 2 => Some("PASTA")
    case 3 => Some("VENDEDOR")
    case 5 => Some("DATA PAGAMENTO")
    case 6 => Some("CATEGORIA")
    case 10 => Some("STATUS PROJETO")
    case 13 => Some("O.S EMITIDA?")
    case 14 => Some("TEMPO ELABORAÇÃO O.S")
    case 15 => Some("TEMPO ELABORAÇÃO O.S CONTINUO")
    case 17 => Some("OBSERVAÇÃO")
    case 18 => Some("MATERIAL ENTREGUE P/ EQUIPE INSTALAÇÃO?")
    case 35 => Some("EQUIPE INSTALAÇÃO")
    case 36 => Some("STATUS INSTALAÇÃO")
    case 37 => Some("OBSERVAÇÃO DA INSTALAÇÃO")
    case 38 => Some("STATUS VISTORIA")
    case 41 => Some("DATA SOLITAÇÃO VISTORIA")
    case _ => None
  }

  /** The fallback of the `i`-th declared field, when it has one, points
      back to that field. */
  predicate InvertsAt(i: int)
    requires 0 <= i < |KEYS|
  {
    KEYS[i] in COLUMN_CONFIG && (COLUMN_CONFIG[KEYS[i]].index >= 0 ==> FieldAt(COLUMN_CONFIG[KEYS[i]].index) == Some(KEYS[i]))
  }

  /** `InvertsAt` for the declared fields, a few at a time. */
  lemma FieldAtInvertsA()
    ensures forall i :: 0 <= i < 3 ==> InvertsAt(i)
  {
  }

  lemma FieldAtInvertsB()
    ensures forall i :: 3 <= i < 6 ==> InvertsAt(i)
  {
  }

  lemma FieldAtInvertsC()
    ensures forall i :: 6 <= i < 9 ==> InvertsAt(i)
  {
  }

  lemma FieldAtInvertsD()
    ensures forall i :: 9 <= i < 13 ==> InvertsAt(i)
  {
  }

  lemma FieldAtInvertsE()
    ensures forall i :: 13 <= i < 18 ==> InvertsAt(i)
  {
  }

  lemma FieldAtInvertsF()
    ensures forall i :: 18 <= i < |KEYS| ==> InvertsAt(i)
  {
  }

  /** Every positional fallback points back to its own field. */
  lemma FieldAtInverts()
    ensures forall k :: k in COLUMN_CONFIG && COLUMN_CONFIG[k].index >= 0 ==> FieldAt(COLUMN_CONFIG[k].index) == Some(k)
  {
    FieldAtInvertsA();
    FieldAtInvertsB();
    FieldAtInvertsC();
    FieldAtInvertsD();
    FieldAtInvertsE();
    FieldAtInvertsF();
    forall k | k in COLUMN_CONFIG && COLUMN_CONFIG[k].index >= 0
      ensures FieldAt(COLUMN_CONFIG[k].index) == Some(k)
    {
      KeysAreTheTable();
      var i :| 0 <= i < |KEYS| && KEYS[i] == k;
      assert InvertsAt(i);
    }
  }

  /** No two fields share a positional fallback column. */
  lemma FallbackIndicesDistinct(k1: string, k2: string)
    requires k1 in COLUMN_CONFIG && k2 in COLUMN_CONFIG && k1 != k2
    requires COLUMN_CONFIG[k1].index >= 0
    ensures COLUMN_CONFIG[k1].index != COLUMN_CONFIG[k2].index
  {
    FieldAtInverts();
  }
}
