/** The spreadsheet ingestion: the status cascade that classifies one row,
    the mapper that turns a row into a record (or drops it), and the sync
    cycle that wipes the store, gathers the records of every configured sheet
    and stores them in one bulk insert. Fetching and CSV parsing are outside
    the model: each sheet's parsed rows are an input, and a failed fetch
    stands for no rows. */
module SyncSheets {
  import opened Wrappers
  import opened Text
  import opened ProjectModel
  import ColumnConfig

  /** A parsed CSV row, keyed by header; a missing key reads as empty. */
  type Row = map<string, string>

  /** `row[key] || ''`. */
  function Cell(row: Row, key: string): string
  {
    if key in row then row[key] else ""
  }

  // The headers the classifier and the mapper read.
  const CLIENTE: string := "CLIENTE"
  const STATUS_INSTALACAO: string := "STATUS INSTALAÇÃO"
  const PRIORIDADE: string := "PRIORIDADE"
  const MATERIAL_ENTREGUE: string := "MATERIAL ENTREGUE P/ EQUIPE INSTALAÇÃO?"
  const OS_EMITIDA: string := "O.S EMITIDA?"
  const EQUIPE_INSTALACAO: string := "EQUIPE INSTALAÇÃO"
  const DATA_PAGAMENTO: string := "DATA PAGAMENTO"
  const TEMPO_CONTINUO: string := "TEMPO ELABORAÇÃO O.S CONTINUO"
  const TEMPO: string := "TEMPO ELABORAÇÃO O.S"
  const OBSERVACAO_INSTALACAO: string := "OBSERVAÇÃO DA INSTALAÇÃO"
  const ID_PROJETO: string := "ID PROJETO"

  const READ_KEYS: seq<string> := [
    CLIENTE, STATUS_INSTALACAO, PRIORIDADE, MATERIAL_ENTREGUE, OS_EMITIDA, EQUIPE_INSTALACAO,
    DATA_PAGAMENTO, TEMPO_CONTINUO, TEMPO, OBSERVACAO_INSTALACAO, ID_PROJETO
  ]

  /** The client placeholder the mapper substitutes for an empty client, and rejects. */
  const PLACEHOLDER_CLIENT: string := "Desconhecido"

  /** Every header the sync code reads is a logical column of the configuration. */
  lemma ReadKeysConfigured()
    ensures forall k :: k in READ_KEYS ==> k in ColumnConfig.COLUMN_CONFIG
  {
  }

  // ---------------------------------------------------------------------
  // Status classification

  /** The six fields the cascade looks at, normalised as the classifier does:
      all trimmed, the installation status and the order flag also
      upper-cased. */
  datatype StatusFields = StatusFields(
    installStatus: string,
    priority: string,
    materialDelivered: string,
    orderIssued: string,
    team: string,
    paymentDate: string)

  function Normalize(row: Row): StatusFields
  {
    StatusFields(
      Upper(Trim(Cell(row, STATUS_INSTALACAO))),
      Trim(Cell(row, PRIORIDADE)),
      Trim(Cell(row, MATERIAL_ENTREGUE)),
      Upper(Trim(Cell(row, OS_EMITIDA))),
      Trim(Cell(row, EQUIPE_INSTALACAO)),
      Trim(Cell(row, DATA_PAGAMENTO)))
  }

  predicate PriorityCandidate(f: StatusFields) {
    |f.priority| > 0 && f.installStatus != "FINALIZADO" && |f.materialDelivered| == 0 && |f.orderIssued| > 0
  }

  predicate DeliveredCandidate(f: StatusFields) {
    f.materialDelivered == "SIM" && f.installStatus != "FINALIZADO"
    && f.installStatus != "EM EXECUÇÃO" && f.installStatus != "EM ANDAMENTO"
  }

  predicate InExecutionCandidate(f: StatusFields) {
    |f.team| > 0 && f.installStatus != "FINALIZADO"
  }

  predicate ToDeliverCandidate(f: StatusFields) {
    f.orderIssued == "SIM" && |f.materialDelivered| == 0 && f.installStatus != "FINALIZADO" && |f.paymentDate| > 0
  }

  /** The cascade: the first candidate rule that holds gives the status;
      `None` means the row matches no rule. */
  function Classify(f: StatusFields): (r: Option<Status>)
    ensures r.Some? ==> RuleHolds(r.value, f) && f.installStatus != "FINALIZADO"
    ensures r != Some(GenerateOs)
  {
    if PriorityCandidate(f) then Some(Priority)
    else if DeliveredCandidate(f) then Some(Delivered)
    else if InExecutionCandidate(f) then Some(InExecution)
    else if ToDeliverCandidate(f) then Some(ToDeliver)
    else None
  }

  /** `determineStatus(row)`. */
  function DetermineStatus(row: Row): (r: Option<Status>)
    ensures r.Some? ==> Normalize(row).installStatus != "FINALIZADO" && r.value != GenerateOs
  {
    Classify(Normalize(row))
  }

  // The cascade as an ordered rule list evaluated by a first-match search,
  // an independent statement of the same classification.

  /** The rules in the order the classifier tries them. There is no rule for
      `GenerateOs`. */
  const RULE_ORDER: seq<Status> := [Priority, Delivered, InExecution, ToDeliver]

  predicate RuleHolds(s: Status, f: StatusFields) {
    match s
    case Priority => PriorityCandidate(f)
    case Delivered => DeliveredCandidate(f)
    case InExecution => InExecutionCandidate(f)
    case ToDeliver => ToDeliverCandidate(f)
    case GenerateOs => false
  }

  /** The label of the first rule in `rules` that holds. */
  function FirstMatch(rules: seq<Status>, f: StatusFields): Option<Status>
  {
    if |rules| == 0 then None
    else if RuleHolds(rules[0], f) then Some(rules[0])
    else FirstMatch(rules[1..], f)
  }

  /** First-match search finds rule `i` exactly when it holds and no earlier
      rule does, and finds nothing exactly when no rule holds. */
  lemma {:induction false} FirstMatchSpec(rules: seq<Status>, f: StatusFields, s: Status)
    ensures FirstMatch(rules, f) == Some(s) <==>
      exists i :: 0 <= i < |rules| && rules[i] == s && RuleHolds(s, f)
        && forall j :: 0 <= j < i ==> !RuleHolds(rules[j], f)
    ensures FirstMatch(rules, f) == None <==> forall j :: 0 <= j < |rules| ==> !RuleHolds(rules[j], f)
  {
    if |rules| > 0 {
      FirstMatchSpec(rules[1..], f, s);
      if FirstMatch(rules, f) == Some(s) {
        if RuleHolds(rules[0], f) {
          assert rules[0] == s;
        } else {
          var i :| 0 <= i < |rules[1..]| && rules[1..][i] == s && RuleHolds(s, f)
            && forall j :: 0 <= j < i ==> !RuleHolds(rules[1..][j], f);
          assert rules[i + 1] == s;
          forall j | 0 <= j < i + 1 ensures !RuleHolds(rules[j], f) {
            if j > 0 {
              assert rules[j] == rules[1..][j - 1];
            }
          }
        }
      }
      if exists i :: 0 <= i < |rules| && rules[i] == s && RuleHolds(s, f)
          && forall j :: 0 <= j < i ==> !RuleHolds(rules[j], f)
      {
        var i :| 0 <= i < |rules| && rules[i] == s && RuleHolds(s, f)
          && forall j :: 0 <= j < i ==> !RuleHolds(rules[j], f);
        if i > 0 {
          assert !RuleHolds(rules[0], f);
          assert rules[1..][i - 1] == s;
          forall j | 0 <= j < i - 1 ensures !RuleHolds(rules[1..][j], f) {
            assert rules[1..][j] == rules[j + 1];
          }
        }
      }
      if forall j :: 0 <= j < |rules| ==> !RuleHolds(rules[j], f) {
        forall j | 0 <= j < |rules[1..]| ensures !RuleHolds(rules[1..][j], f) {
          assert rules[1..][j] == rules[j + 1];
        }
      }
    }
  }

  /** The classifier is the first-match search over the rule order. */
  lemma ClassifyIsFirstMatch(f: StatusFields)
    ensures Classify(f) == FirstMatch(RULE_ORDER, f)
  {
    assert FirstMatch([ToDeliver], f) == if ToDeliverCandidate(f) then Some(ToDeliver) else None by {
      assert [ToDeliver][1..] == [];
    }
    assert FirstMatch([InExecution, ToDeliver], f)
      == if InExecutionCandidate(f) then Some(InExecution) else FirstMatch([ToDeliver], f) by {
      assert [InExecution, ToDeliver][1..] == [ToDeliver];
    }
    assert FirstMatch([Delivered, InExecution, ToDeliver], f)
      == if DeliveredCandidate(f) then Some(Delivered) else FirstMatch([InExecution, ToDeliver], f) by {
      assert [Delivered, InExecution, ToDeliver][1..] == [InExecution, ToDeliver];
    }
    assert FirstMatch(RULE_ORDER, f)
      == if PriorityCandidate(f) then Some(Priority) else FirstMatch([Delivered, InExecution, ToDeliver], f) by {
      assert RULE_ORDER[1..] == [Delivered, InExecution, ToDeliver];
    }
  }

  /** A status comes out exactly when its own rule holds and no rule tried
      before it does; nothing comes out exactly when no rule holds. */
  lemma ClassifyCharacterized(f: StatusFields, s: Status)
    ensures Classify(f) == Some(s) <==>
      exists i :: 0 <= i < |RULE_ORDER| && RULE_ORDER[i] == s && RuleHolds(s, f)
        && forall j :: 0 <= j < i ==> !RuleHolds(RULE_ORDER[j], f)
    ensures Classify(f) == None <==> forall j :: 0 <= j < |RULE_ORDER| ==> !RuleHolds(RULE_ORDER[j], f)
  {
    ClassifyIsFirstMatch(f);
    FirstMatchSpec(RULE_ORDER, f, s);
  }

  /** A finished installation is never classified: every rule needs the
      status to differ from `FINALIZADO`. */
  lemma FinalizedIsDropped(row: Row)
    ensures Normalize(row).installStatus == "FINALIZADO" <==>
      (DetermineStatus(row).None? && Upper(Trim(Cell(row, STATUS_INSTALACAO))) == "FINALIZADO")
    ensures DetermineStatus(row).Some? ==> Normalize(row).installStatus != "FINALIZADO"
  {
  }

  /** The status is compared after trimming and upper-casing, so a
      lower-case, padded `finalizado` also drops the row. */
  lemma FinalizedAnyCase(row: Row)
    requires Cell(row, STATUS_INSTALACAO) == " finalizado "
    ensures DetermineStatus(row).None?
  {
    var v := Cell(row, STATUS_INSTALACAO);
    assert TrimStart(v) == "finalizado ";
    assert TrimEnd("finalizado ") == "finalizado";
    assert Upper("finalizado") == "FINALIZADO";
  }

  /** The classifier never yields `GenerateOs`, so every status it yields is
      one of the schema's values. */
  lemma StatusInSchema(row: Row)
    ensures DetermineStatus(row) != Some(GenerateOs)
    ensures DetermineStatus(row).Some? ==> StatusName(DetermineStatus(row).value) in STATUS_VALUES
  {
  }

  /** Rule order decides on overlap: a row that meets both the priority and
      the in-execution rule is a priority. */
  lemma PriorityOutranksExecution(f: StatusFields)
    requires PriorityCandidate(f) && InExecutionCandidate(f)
    ensures Classify(f) == Some(Priority)
  {
  }

  /** A row with a priority, an issued order, no delivered material and an
      installation under way by a team is a candidate for both `PRIORITY` and
      `IN_EXECUTION`; the earlier rule wins. */
  lemma PriorityOverlapExample()
    ensures var row := map[
      PRIORIDADE := "ALTA", OS_EMITIDA := "SIM", MATERIAL_ENTREGUE := "",
      STATUS_INSTALACAO := "EM ANDAMENTO", EQUIPE_INSTALACAO := "EQUIPE 1"];
      PriorityCandidate(Normalize(row)) && InExecutionCandidate(Normalize(row))
      && DetermineStatus(row) == Some(Priority)
  {
    PriorityRowNormalizes();
  }

  /** The cells of that row. */
  lemma PriorityRowCells()
    ensures var row := map[
      PRIORIDADE := "ALTA", OS_EMITIDA := "SIM", MATERIAL_ENTREGUE := "",
      STATUS_INSTALACAO := "EM ANDAMENTO", EQUIPE_INSTALACAO := "EQUIPE 1"];
      Cell(row, PRIORIDADE) == "ALTA" && Cell(row, OS_EMITIDA) == "SIM" && Cell(row, MATERIAL_ENTREGUE) == ""
      && Cell(row, STATUS_INSTALACAO) == "EM ANDAMENTO" && Cell(row, EQUIPE_INSTALACAO) == "EQUIPE 1"
      && Cell(row, DATA_PAGAMENTO) == ""
  {
    assert DATA_PAGAMENTO[0] == 'D';
  }

  /** The normalised fields of that row. */
  lemma PriorityRowNormalizes()
    ensures var row := map[
      PRIORIDADE := "ALTA", OS_EMITIDA := "SIM", MATERIAL_ENTREGUE := "",
      STATUS_INSTALACAO := "EM ANDAMENTO", EQUIPE_INSTALACAO := "EQUIPE 1"];
      Normalize(row) == StatusFields("EM ANDAMENTO", "ALTA", "", "SIM", "EQUIPE 1", "")
  {
    var row := map[
      PRIORIDADE := "ALTA", OS_EMITIDA := "SIM", MATERIAL_ENTREGUE := "",
      STATUS_INSTALACAO := "EM ANDAMENTO", EQUIPE_INSTALACAO := "EQUIPE 1"];
    PriorityRowCells();
    TrimFixed("ALTA");
    TrimFixed("SIM");
    TrimFixed("EM ANDAMENTO");
    TrimFixed("EQUIPE 1");
    TrimFixed("");
    UpperFixed("SIM");
    UpperFixed("EM ANDAMENTO");
  }

  /** `DELIVERED` needs the material flag to be exactly `SIM` once trimmed;
      the flag is not upper-cased. */
  lemma DeliveredNeedsExactSim(row: Row)
    ensures DetermineStatus(row) == Some(Delivered) ==> Trim(Cell(row, MATERIAL_ENTREGUE)) == "SIM"
    ensures Trim(Cell(row, MATERIAL_ENTREGUE)) == "sim" ==> DetermineStatus(row) != Some(Delivered)
  {
  }

  /** With the material delivered and the installation under way, the
      delivered rule is excluded whatever the team, and a row with a team
      falls through to `IN_EXECUTION`. */
  lemma UnderWayFallsToExecution(f: StatusFields)
    requires f.materialDelivered == "SIM"
    requires f.installStatus == "EM EXECUÇÃO" || f.installStatus == "EM ANDAMENTO"
    ensures !DeliveredCandidate(f)
    ensures |f.team| > 0 ==> Classify(f) == Some(InExecution)
    ensures |f.team| == 0 ==> Classify(f) == None
  {
  }

  /** The same from a raw row written in lower case: `em execução` upper-cases
      to `EM EXECUÇÃO` (the accented letters included). */
  lemma UnderWayLowerCaseExample()
    ensures var row := map[
      MATERIAL_ENTREGUE := "SIM", STATUS_INSTALACAO := "em execução", EQUIPE_INSTALACAO := "EQUIPE 2"];
      DetermineStatus(row) == Some(InExecution)
  {
    UnderWayRowNormalizes();
    UnderWayFallsToExecution(StatusFields("EM EXECUÇÃO", "", "SIM", "", "EQUIPE 2", ""));
  }

  /** The cells of that row. */
  lemma UnderWayRowCells()
    ensures var row := map[
      MATERIAL_ENTREGUE := "SIM", STATUS_INSTALACAO := "em execução", EQUIPE_INSTALACAO := "EQUIPE 2"];
      Cell(row, MATERIAL_ENTREGUE) == "SIM" && Cell(row, STATUS_INSTALACAO) == "em execução"
      && Cell(row, EQUIPE_INSTALACAO) == "EQUIPE 2"
      && Cell(row, PRIORIDADE) == "" && Cell(row, OS_EMITIDA) == "" && Cell(row, DATA_PAGAMENTO) == ""
  {
    assert PRIORIDADE[0] == 'P' && OS_EMITIDA[0] == 'O' && DATA_PAGAMENTO[0] == 'D';
  }

  /** The normalised fields of that row. */
  lemma UnderWayRowNormalizes()
    ensures var row := map[
      MATERIAL_ENTREGUE := "SIM", STATUS_INSTALACAO := "em execução", EQUIPE_INSTALACAO := "EQUIPE 2"];
      Normalize(row) == StatusFields("EM EXECUÇÃO", "", "SIM", "", "EQUIPE 2", "")
  {
    var row := map[
      MATERIAL_ENTREGUE := "SIM", STATUS_INSTALACAO := "em execução", EQUIPE_INSTALACAO := "EQUIPE 2"];
    UnderWayRowCells();
    TrimFixed("SIM");
    TrimFixed("em execução");
    TrimFixed("EQUIPE 2");
    TrimFixed("");
    assert Upper("em execução") == "EM EXECUÇÃO";
    assert Upper("") == "";
  }

  /** `TO_DELIVER` comes out exactly when there is no team, the priority and
      delivered rules fail, the order flag is `SIM`, no material is
      delivered, the installation is not finished and a payment date is set. */
  lemma ToDeliverExactly(f: StatusFields)
    ensures Classify(f) == Some(ToDeliver) <==>
      |f.team| == 0 && !PriorityCandidate(f) && !DeliveredCandidate(f)
      && f.orderIssued == "SIM" && |f.materialDelivered| == 0
      && f.installStatus != "FINALIZADO" && |f.paymentDate| > 0
  {
  }

  // ---------------------------------------------------------------------
  // Row mapper

  /** A record made from one row, before storage. */
  datatype Record = Record(
    client: string,
    status: Status,
    days: int,
    city: string,
    team: string,
    details: string,
    externalId: Option<string>)

  /** `row['CLIENTE'] || 'Desconhecido'`. */
  function ClientName(row: Row): string
  {
    if Cell(row, CLIENTE) != "" then Cell(row, CLIENTE) else PLACEHOLDER_CLIENT
  }

  /** The text the elaboration time is read from: the continuous column if it
      is non-empty, else the plain column, else the number 0. */
  function ElaborationText(row: Row): string
  {
    if Cell(row, TEMPO_CONTINUO) != "" then Cell(row, TEMPO_CONTINUO)
    else if Cell(row, TEMPO) != "" then Cell(row, TEMPO)
    else "0"
  }

  /** `parseInt` of the elaboration text, with `NaN` turned into 0. */
  function ElaborationDays(row: Row): int
  {
    match ParseInt(ElaborationText(row))
    case None => 0
    case Some(n) => n
  }

  /** The mapper of one row of the sheet for `city`: `None` is a dropped row. */
  function MapRow(row: Row, city: string): (r: Option<Record>)
    ensures r.Some? ==>
      r.value.city == city && r.value.client != "" && r.value.client != PLACEHOLDER_CLIENT
      && Some(r.value.status) == DetermineStatus(row)
  {
    var status := DetermineStatus(row);
    var clientName := ClientName(row);
    if clientName == "" || clientName == PLACEHOLDER_CLIENT then None
    else if status.None? then None
    else Some(Record(
      clientName,
      status.value,
      ElaborationDays(row),
      city,
      Cell(row, EQUIPE_INSTALACAO),
      Cell(row, OBSERVACAO_INSTALACAO),
      if Cell(row, ID_PROJETO) != "" then Some(Cell(row, ID_PROJETO)) else None))
  }

  /** A row is dropped in exactly three cases: no client, the placeholder
      client, or no status. */
  lemma MapRowDrops(row: Row, city: string)
    ensures MapRow(row, city).None? <==>
      Cell(row, CLIENTE) == "" || Cell(row, CLIENTE) == PLACEHOLDER_CLIENT || DetermineStatus(row).None?
  {
  }

  /** What a kept row becomes: its own client and status, the sheet's city,
      team and details defaulting to empty and the project id to `None`. */
  lemma MapRowFields(row: Row, city: string)
    requires MapRow(row, city).Some?
    ensures var r := MapRow(row, city).value;
      && r.client == Cell(row, CLIENTE) && r.client != "" && r.client != PLACEHOLDER_CLIENT
      && Some(r.status) == DetermineStatus(row) && r.status != GenerateOs
      && r.city == city
      && (EQUIPE_INSTALACAO in row ==> r.team == row[EQUIPE_INSTALACAO])
      && (EQUIPE_INSTALACAO !in row ==> r.team == "")
      && (OBSERVACAO_INSTALACAO in row ==> r.details == row[OBSERVACAO_INSTALACAO])
      && (OBSERVACAO_INSTALACAO !in row ==> r.details == "")
      && (r.externalId.None? <==> Cell(row, ID_PROJETO) == "")
      && (r.externalId.Some? ==> r.externalId.value == row[ID_PROJETO])
      && r.days == ElaborationDays(row)
  {
  }

  /** A number in the continuous column is the elaboration time. */
  lemma DaysFromContinuous(row: Row, n: int)
    requires Cell(row, TEMPO_CONTINUO) == IntToString(n)
    ensures ElaborationDays(row) == n
  {
    ParseIntIntToString(n);
    NatToStringLeadingZero(if n < 0 then -n else n);
  }

  /** An empty continuous column falls back to the plain one. */
  lemma DaysFallBack(row: Row, n: int)
    requires Cell(row, TEMPO_CONTINUO) == "" && Cell(row, TEMPO) == IntToString(n)
    ensures ElaborationDays(row) == n
  {
    ParseIntIntToString(n);
  }

  /** A non-empty but non-numeric continuous column gives 0; the plain column
      is not consulted. */
  lemma DaysNoFallBackOnGarbage(row: Row)
    requires Cell(row, TEMPO_CONTINUO) != ""
    requires ParseInt(Cell(row, TEMPO_CONTINUO)).None?
    ensures ElaborationDays(row) == 0
  {
  }

  /** Both columns empty gives 0. */
  lemma DaysBothEmpty(row: Row)
    requires Cell(row, TEMPO_CONTINUO) == "" && Cell(row, TEMPO) == ""
    ensures ElaborationDays(row) == 0
  {
    ParseIntIntToString(0);
  }

  /** Every row of one sheet mapped (`rows.map(...)`). */
  function MapAll(rows: seq<Row>, city: string): (ms: seq<Option<Record>>)
    ensures |ms| == |rows|
  {
    seq(|rows|, i requires 0 <= i < |rows| => MapRow(rows[i], city))
  }

  /** The `i`-th mapped entry is the `i`-th row mapped. */
  lemma MapAllAt(rows: seq<Row>, city: string, i: nat)
    requires i < |rows|
    ensures MapAll(rows, city)[i] == MapRow(rows[i], city)
  {
  }

  /** The mapped rows that were kept, in order (`.filter(p => p !== null)`). */
  function Kept(ms: seq<Option<Record>>): (rs: seq<Record>)
    ensures |rs| <= |ms|
  {
    if |ms| == 0 then []
    else match ms[0]
      case None => Kept(ms[1..])
      case Some(r) => [r] + Kept(ms[1..])
  }

  /** The records of one sheet: each row mapped, the dropped ones removed,
      order kept. */
  function ValidRecords(rows: seq<Row>, city: string): (rs: seq<Record>)
    ensures |rs| <= |rows|
  {
    Kept(MapAll(rows, city))
  }

  /** A kept record is one of the mapped ones, and every mapped record is kept. */
  lemma {:induction false} KeptSpec(ms: seq<Option<Record>>)
    ensures forall r :: r in Kept(ms) <==> Some(r) in ms
  {
    if |ms| > 0 {
      KeptSpec(ms[1..]);
      assert ms == [ms[0]] + ms[1..];
    }
  }

  /** Keeping distributes over concatenation. */
  lemma {:induction false} KeptAppend(a: seq<Option<Record>>, b: seq<Option<Record>>)
    ensures Kept(a + b) == Kept(a) + Kept(b)
  {
    if |a| > 0 {
      assert (a + b)[1..] == a[1..] + b;
      KeptAppend(a[1..], b);
    } else {
      assert a + b == b;
    }
  }

  /** Every kept record comes from a row, and every row that maps to a record
      contributes it. */
  lemma ValidRecordsMembership(rows: seq<Row>, city: string, r: Record)
    ensures r in ValidRecords(rows, city) <==> exists i :: 0 <= i < |rows| && MapRow(rows[i], city) == Some(r)
  {
    var ms := MapAll(rows, city);
    KeptSpec(ms);
    forall i | 0 <= i < |rows| ensures ms[i] == MapRow(rows[i], city) {
      MapAllAt(rows, city, i);
    }
  }

  /** Every kept record carries the sheet's city and a real client, and has a
      status from the cascade. */
  lemma ValidRecordsSound(rows: seq<Row>, city: string)
    ensures forall r :: r in ValidRecords(rows, city) ==>
      r.city == city && r.client != "" && r.client != PLACEHOLDER_CLIENT && r.status != GenerateOs
  {
    forall r | r in ValidRecords(rows, city)
      ensures r.city == city && r.client != "" && r.client != PLACEHOLDER_CLIENT && r.status != GenerateOs
    {
      ValidRecordsMembership(rows, city, r);
      var i :| 0 <= i < |rows| && MapRow(rows[i], city) == Some(r);
      MapRowFields(rows[i], city);
    }
  }

  /** Mapping distributes over concatenation of row lists. */
  lemma ValidRecordsAppend(a: seq<Row>, b: seq<Row>, city: string)
    ensures ValidRecords(a + b, city) == ValidRecords(a, city) + ValidRecords(b, city)
  {
    var ma, mb, mab := MapAll(a, city), MapAll(b, city), MapAll(a + b, city);
    forall i | 0 <= i < |a + b|
      ensures mab[i] == (ma + mb)[i]
    {
      if i < |a| {
        assert (a + b)[i] == a[i];
      } else {
        assert (a + b)[i] == b[i - |a|];
      }
    }
    assert mab == ma + mb;
    KeptAppend(ma, mb);
  }

  // ---------------------------------------------------------------------
  // Storage of a record

  /** The attributes handed to the bulk insert for one record. */
  function ToAttributes(r: Record): Attributes
  {
    Attributes(
      Given(r.client), Given(StatusName(r.status)), Given(r.days), Given(r.team),
      if r.externalId.Some? then Given(r.externalId.value) else Null,
      Omitted, Omitted, Omitted, Given(r.city), Given(r.details))
  }

  /** The schema accepts every record the mapper makes, and stores it as it
      is, with the inspection columns null. */
  lemma RecordIsAccepted(r: Record)
    ensures Create(ToAttributes(r)) == Success(Project(
      r.client, r.status, Some(r.days), Some(r.team), r.externalId,
      None, None, None, Some(r.city), Some(r.details)))
  {
    StatusNameRoundTrip(r.status, "");
  }

  // ---------------------------------------------------------------------
  // The sync cycle

  /** One configured sheet: where it is published and the city it covers. */
  datatype Sheet = Sheet(url: string, city: string)

  const SHEETS_CONFIG: seq<Sheet> := [
    Sheet("https://docs.google.com/spreadsheets/d/e/2PACX-1vQHlUaE1_7XtdwIBnBdpQslgLfuUF4nYkcb5naBD-r6wO1fvF71H7MSFS7aAgo23ZcWDV6NWNv60tXo/pub?gid=1627447881&single=true&output=csv", "SORRISO"),
    Sheet("https://docs.google.com/spreadsheets/d/e/2PACX-1vTPVWujNnTvpv-CDJ2FPYxytXxw0CiPDnmt_M5oxM6kBqQb6z25VvhbVHhsF78dI91RQAqSIVr9b8d8/pub?gid=190340504&single=true&output=csv", "LUCAS DO RIO VERDE"),
    Sheet("https://docs.google.com/spreadsheets/d/e/2PACX-1vTNNo3D9oIrM5zgIwMO13jNrxfom0AjKDxAQo52nNDDf4UV0xgs5uDBS1BKReo-9h4Nc74t-2JfZNk_/pub?gid=1627447881&single=true&output=csv", "SINOP"),
    Sheet("https://docs.google.com/spreadsheets/d/e/2PACX-1vR7xtQIZa-2ihoUiMoCl1SlIcIGrWJoO-mGCgvBaHUVe4VG-hBbgEIoBEc9pYPf_segqcdKqzhEW8ga/pub?gid=1094340291&single=true&output=csv", "MATUPÁ")
  ]

  /** What fetching one sheet produced. */
  datatype Fetch = Fetched(rows: seq<Row>) | FetchFailed

  /** `fetchAndParseCSV`: a failed fetch yields no rows. */
  function FetchedRows(f: Fetch): seq<Row>
  {
    match f
    case Fetched(rows) => rows
    case FetchFailed => []
  }

  /** The records of all sheets, sheet after sheet, as the loop gathers them. */
  function Accumulate(sheets: seq<Sheet>, fetched: seq<Fetch>): seq<Record>
    requires |sheets| == |fetched|
  {
    if |sheets| == 0 then []
    else (Accumulate(sheets[..|sheets| - 1], fetched[..|fetched| - 1])
      + ValidRecords(FetchedRows(fetched[|fetched| - 1]), sheets[|sheets| - 1].city))
  }

  /** One more sheet adds its valid records at the end. */
  lemma AccumulateStep(sheets: seq<Sheet>, fetched: seq<Fetch>, i: nat)
    requires |sheets| == |fetched| && i < |sheets|
    ensures Accumulate(sheets[..i + 1], fetched[..i + 1])
      == Accumulate(sheets[..i], fetched[..i]) + ValidRecords(FetchedRows(fetched[i]), sheets[i].city)
  {
    assert sheets[..i + 1][..i] == sheets[..i];
    assert fetched[..i + 1][..i] == fetched[..i];
  }

  /** A single sheet contributes its valid records. */
  lemma AccumulateOne(s: Sheet, f: Fetch)
    ensures Accumulate([s], [f]) == ValidRecords(FetchedRows(f), s.city)
  {
  }

  /** When every fetch fails nothing is gathered. */
  lemma {:induction false} AccumulateAllFailed(sheets: seq<Sheet>, fetched: seq<Fetch>)
    requires |sheets| == |fetched|
    requires forall i :: 0 <= i < |fetched| ==> fetched[i].FetchFailed?
    ensures Accumulate(sheets, fetched) == []
  {
    if |sheets| > 0 {
      AccumulateAllFailed(sheets[..|sheets| - 1], fetched[..|fetched| - 1]);
    }
  }

  /** The rows a stored record state stands for. */
  function Stored(rs: seq<Record>): (ps: seq<Project>)
    ensures |ps| == |rs|
  {
    if |rs| == 0 then []
    else Stored(rs[..|rs| - 1]) + [Create(ToAttributes(rs[|rs| - 1])).value]
  }

  /** The attributes of a batch of records. */
  function BatchAttributes(rs: seq<Record>): (batch: seq<Attributes>)
    ensures |batch| == |rs|
  {
    seq(|rs|, i requires 0 <= i < |rs| => ToAttributes(rs[i]))
  }

  /** The records a batch of attributes becomes, or the first reason one is refused. */
  function CreateAll(batch: seq<Attributes>): Result<seq<Project>, SchemaError>
  {
    if |batch| == 0 then Success([])
    else match CreateAll(batch[..|batch| - 1])
      case Failure(e) => Failure(e)
      case Success(ps) =>
        match Create(batch[|batch| - 1])
        case Failure(e) => Failure(e)
        case Success(p) => Success(ps + [p])
  }

  /** A batch of mapped records is accepted as a whole and stored in order. */
  lemma {:induction false} CreateAllRecords(rs: seq<Record>)
    ensures CreateAll(BatchAttributes(rs)) == Success(Stored(rs))
  {
    if |rs| > 0 {
      var n := |rs| - 1;
      assert BatchAttributes(rs)[..n] == BatchAttributes(rs[..n]);
      CreateAllRecords(rs[..n]);
      RecordIsAccepted(rs[n]);
    }
  }

  /** Every record stored by a sync has a real client, a schema status other
      than `GenerateOs`, a day count and a city. */
  lemma {:induction false} StoredAreValid(rs: seq<Record>)
    requires forall r :: r in rs ==> r.client != "" && r.client != PLACEHOLDER_CLIENT && r.status != GenerateOs
    ensures forall p :: p in Stored(rs) ==>
      p.client != "" && p.client != PLACEHOLDER_CLIENT && p.status != GenerateOs && p.days.Some? && p.city.Some?
  {
    if |rs| > 0 {
      var n := |rs| - 1;
      StoredAreValid(rs[..n]);
      RecordIsAccepted(rs[n]);
      assert rs[n] in rs;
    }
  }

  /** The stored table. */
  class ProjectStore {
    var rows: seq<Project>

    constructor ()
      ensures rows == []
    {
      rows := [];
    }

    /** `Project.destroy({ truncate: true })`. */
    method Destroy()
      modifies this
      ensures rows == []
    {
      rows := [];
    }

    /** `Project.bulkCreate(batch)`: one insert that stores the whole batch,
        or stores nothing and reports why. */
    method BulkCreate(batch: seq<Attributes>) returns (result: Result<nat, SchemaError>)
      modifies this
      ensures CreateAll(batch).Success? ==> rows == old(rows) + CreateAll(batch).value && result == Success(|batch|)
      ensures CreateAll(batch).Failure? ==> rows == old(rows) && result == Failure(CreateAll(batch).error)
    {
      match CreateAll(batch)
      case Success(ps) =>
        rows := rows + ps;
        result := Success(|batch|);
      case Failure(e) =>
        result := Failure(e);
    }
  }

  /** The loop of `syncSheets` over the configured sheets: the valid records
      of each sheet (`fetched[i]` is what fetching sheet `i` gave), sheet
      after sheet. */
  method Gather(sheets: seq<Sheet>, fetched: seq<Fetch>) returns (allProjects: seq<Record>)
    requires |fetched| == |sheets|
    ensures allProjects == Accumulate(sheets, fetched)
  {
    allProjects := [];
    for i := 0 to |sheets|
      invariant allProjects == Accumulate(sheets[..i], fetched[..i])
    {
      var sheet := sheets[i];
      var rows := FetchedRows(fetched[i]);
      var validRows := ValidRecords(rows, sheet.city);
      AccumulateStep(sheets, fetched, i);
      allProjects := allProjects + validRows;
    }
    assert sheets[..|sheets|] == sheets;
    assert fetched[..|fetched|] == fetched;
  }

  /** What the end of a sync rests on: a non-empty gathering is accepted as
      one batch, an empty one stores nothing, and when every fetch fails the
      gathering is empty. */
  lemma SyncOutcome(sheets: seq<Sheet>, fetched: seq<Fetch>)
    requires |fetched| == |sheets|
    ensures CreateAll(BatchAttributes(Accumulate(sheets, fetched))) == Success(Stored(Accumulate(sheets, fetched)))
    ensures |Accumulate(sheets, fetched)| == 0 ==> Stored(Accumulate(sheets, fetched)) == []
    ensures (forall i :: 0 <= i < |fetched| ==> fetched[i].FetchFailed?) ==> Accumulate(sheets, fetched) == []
  {
    CreateAllRecords(Accumulate(sheets, fetched));
    if forall i :: 0 <= i < |fetched| ==> fetched[i].FetchFailed? {
      AccumulateAllFailed(sheets, fetched);
    }
  }

  /** `syncSheets` over a list of sheets (the application passes
      `SHEETS_CONFIG`): wipe the table, gather the valid records of every
      sheet in order, and bulk-insert them if there are any. The table is
      wiped before anything is fetched, so when no sheet yields a valid row
      the table is left empty. */
  method Sync(store: ProjectStore, sheets: seq<Sheet>, fetched: seq<Fetch>) returns (count: nat)
    requires |fetched| == |sheets|
    modifies store
    ensures store.rows == Stored(Accumulate(sheets, fetched))
    ensures count == |store.rows| == |Accumulate(sheets, fetched)|
    ensures (forall i :: 0 <= i < |fetched| ==> fetched[i].FetchFailed?) ==> store.rows == []
  {
    store.Destroy();
    var allProjects := Gather(sheets, fetched);
    SyncOutcome(sheets, fetched);
    ghost var stored := Stored(allProjects);
    if |allProjects| > 0 {
      var batch := BatchAttributes(allProjects);
      assert CreateAll(batch) == Success(stored);
      var result := store.BulkCreate(batch);
      assert store.rows == stored;
    }
    count := |allProjects|;
  }
}
