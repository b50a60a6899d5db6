/** The persisted project record and the rules its schema imposes: which
    attributes are required, which values the status may take, and the
    defaults the storage layer fills in for attributes that are left out. */
module ProjectModel {
  import opened Wrappers

  /** The workflow status of a record; the schema accepts these five only. */
  datatype Status = GenerateOs | Priority | ToDeliver | Delivered | InExecution

  /** The status names as they are stored, in the order the schema lists them. */
  const STATUS_VALUES: seq<string> := ["GENERATE_OS", "PRIORITY", "TO_DELIVER", "DELIVERED", "IN_EXECUTION"]

  const DEFAULT_DAYS: int := 0
  const DEFAULT_TEAM: string := ""
  const DEFAULT_CITY: string := "SORRISO"

  /** The stored name of a status. */
  function StatusName(s: Status): (name: string)
    ensures name in STATUS_VALUES
  {
    match s
    case GenerateOs => "GENERATE_OS"
    case Priority => "PRIORITY"
    case ToDeliver => "TO_DELIVER"
    case Delivered => "DELIVERED"
    case InExecution => "IN_EXECUTION"
  }

  /** The status a stored name stands for, if it is one of the schema's values. */
  function ParseStatus(name: string): (r: Option<Status>)
    ensures r.Some? <==> name in STATUS_VALUES
  {
    if name == "GENERATE_OS" then Some(GenerateOs)
    else if name == "PRIORITY" then Some(Priority)
    else if name == "TO_DELIVER" then Some(ToDeliver)
    else if name == "DELIVERED" then Some(Delivered)
    else if name == "IN_EXECUTION" then Some(InExecution)
    else None
  }

  /** Names and statuses correspond one to one. */
  lemma StatusNameRoundTrip(s: Status, name: string)
    ensures ParseStatus(StatusName(s)) == Some(s)
    ensures ParseStatus(name).Some? ==> StatusName(ParseStatus(name).value) == name
  {
  }

  /** An attribute as it is handed to the storage layer: left out, given as
      `null`, or given a value. */
  datatype Value<T> = Omitted | Null | Given(value: T)

  /** The attributes of one record to be created. */
  datatype Attributes = Attributes(
    client: Value<string>,
    status: Value<string>,
    days: Value<int>,
    team: Value<string>,
    externalId: Value<string>,
    vistoriaStatus: Value<string>,
    vistoriaDate: Value<string>,
    vistoriaDeadline: Value<string>,
    city: Value<string>,
    details: Value<string>)

  /** A stored record. `client` and `status` can never be null; every other
      column is nullable. */
  datatype Project = Project(
    client: string,
    status: Status,
    days: Option<int>,
    team: Option<string>,
    externalId: Option<string>,
    vistoriaStatus: Option<string>,
    vistoriaDate: Option<string>,
    vistoriaDeadline: Option<string>,
    city: Option<string>,
    details: Option<string>)

  /** Why the schema refuses a set of attributes. */
  datatype SchemaError = NotNull(field: string) | NotInEnum(field: string, given: string)

  /** The stored value of a nullable column: its default when the attribute is
      left out, null when it is given as null. */
  function Column<T>(v: Value<T>, default: Option<T>): Option<T>
  {
    match v
    case Omitted => default
    case Null => None
    case Given(x) => Some(x)
  }

  /** The record the schema makes of a set of attributes, or why it refuses:
      a missing or null client or status is refused, and so is a status that
      is not one of the five; `days`, `team` and `city` have defaults, the
      other columns default to null. */
  function Create(a: Attributes): (r: Result<Project, SchemaError>)
  {
    if !a.client.Given? then Failure(NotNull("client"))
    else if !a.status.Given? then Failure(NotNull("status"))
    else match ParseStatus(a.status.value)
      case None => Failure(NotInEnum("status", a.status.value))
      case Some(s) =>
        Success(Project(
          a.client.value, s,
          Column(a.days, Some(DEFAULT_DAYS)),
          Column(a.team, Some(DEFAULT_TEAM)),
          Column(a.externalId, None),
          Column(a.vistoriaStatus, None),
          Column(a.vistoriaDate, None),
          Column(a.vistoriaDeadline, None),
          Column(a.city, Some(DEFAULT_CITY)),
          Column(a.details, None)))
  }

  /** The schema accepts exactly the attributes that give a client and one of
      the five status names. */
  lemma CreateAccepts(a: Attributes)
    ensures Create(a).Success? <==> a.client.Given? && a.status.Given? && a.status.value in STATUS_VALUES
  {
  }

  /** What an accepted record holds: the client and status given, the
      defaults for left-out `days` (0), `team` (empty) and `city` (`SORRISO`),
      null for the other left-out columns, and the given value everywhere
      else. */
  lemma CreateFields(a: Attributes)
    requires Create(a).Success?
    ensures var p := Create(a).value;
      && p.client == a.client.value
      && StatusName(p.status) == a.status.value
      && (a.days.Omitted? ==> p.days == Some(0))
      && (a.team.Omitted? ==> p.team == Some(""))
      && (a.city.Omitted? ==> p.city == Some("SORRISO"))
      && (a.externalId.Omitted? || a.externalId.Null? ==> p.externalId.None?)
      && (a.details.Omitted? || a.details.Null? ==> p.details.None?)
      && (a.vistoriaStatus.Omitted? ==> p.vistoriaStatus.None?)
      && (a.vistoriaDate.Omitted? ==> p.vistoriaDate.None?)
      && (a.vistoriaDeadline.Omitted? ==> p.vistoriaDeadline.None?)
      && (a.days.Given? ==> p.days == Some(a.days.value))
      && (a.team.Given? ==> p.team == Some(a.team.value))
      && (a.city.Given? ==> p.city == Some(a.city.value))
      && (a.externalId.Given? ==> p.externalId == Some(a.externalId.value))
      && (a.details.Given? ==> p.details == Some(a.details.value))
  {
    StatusNameRoundTrip(Create(a).value.status, a.status.value);
  }
}
