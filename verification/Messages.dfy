/**
 From endpoint schemas to the table of protobuf messages, as a specification:
 every function returns the table it leaves, or the failure that is raised.
 */
module Messages {
  import opened Prelude
  import opened Names
  import opened Numbering

  /** Python raises ProtoGenerationError, or trips over a local that was never assigned. */
  datatype Failure = GenerationError | UnboundResponse

  // ---------------------------------------------------------------- schemas

  datatype Schema =
    | Primitive(typeName: string)
    | Date
    | DatetimeTz
    | Struct(closed: bool, properties: map<string, Schema>)
    | List(item: Schema)
    | ListWithoutItems

  datatype Endpoint = Endpoint(
    id: string,
    overGrpc: bool,
    handWritten: bool,
    parameters: map<string, Schema>,
    response: Schema)
  {
    /** The parameters as the properties of one closed Struct. */
    function RequestSchema(): (s: Schema)
      ensures s.Struct?
    {
      Struct(true, parameters)
    }
  }

  function ScalarType(typeName: string): (r: Option<string>)
    ensures r.Some? ==> r.value != "" && IsLower(r.value[0])
  {
    match typeName
    case "Float" => Some("float")
    case "Double" => Some("double")
    case "Int32" => Some("int32")
    case "Int64" => Some("int64")
    case "Uint32" => Some("uint32")
    case "Uint64" => Some("uint64")
    case "Sint32" => Some("sint32")
    case "Sint64" => Some("sint64")
    case "Fixed32" => Some("fixed32")
    case "Fixed64" => Some("fixed64")
    case "Sfixed32" => Some("sfixed32")
    case "Sfixed64" => Some("sfixed64")
    case "Bool" => Some("bool")
    case "String" => Some("string")
    case "Bytes" => Some("bytes")
    case "ArrowTable" => Some("bytes")
    case "Datetime" => Some("sint64")
    case "Int" => Some("sint32")
    case "Bigint" => Some("sint64")
    case _ => None
  }

  // ---------------------------------------------------------------- tables

  /**
   The interface path that a message stands for. Rendered, paths stay distinct:
   endpoint ids hold no ':' and identifiers hold no '.'.
   */
  datatype Origin =
    | Platform(kind: PlatformMessage)
    | Path(endpoint: string, direction: Direction, segments: seq<string>)
  {
    function Child(name: string): Origin
      requires Path?
    {
      Path(endpoint, direction, segments + [name])
    }

    predicate Covers(inner: Origin) {
      Path? && inner.Path? && endpoint == inner.endpoint && direction == inner.direction && segments <= inner.segments
    }
  }

  datatype Table = Table(messages: map<string, Shape>, origins: map<string, Origin>)

  const EMPTY_TABLE := Table(map[], map[])
  const STATUS_ENUM := "PyscriptsExecutionStatus"
  const STREAM_ENUM := "PyscriptsLogStream"

  function Plain(name: string, typeName: string): Field {
    Field(name, typeName, false, 0)
  }

  /** The messages that the platform itself defines. */
  datatype PlatformMessage = DateValue | DatetimeTzValue | ExecutionLog | Execution {
    function Name(): string {
      match this
      case DateValue => "PyscriptsDate"
      case DatetimeTzValue => "PyscriptsDatetimeTz"
      case ExecutionLog => "PyscriptsExecutionLog"
      case Execution => "PyscriptsExecution"
    }

    function Fields(): seq<Field> {
      match this
      case DateValue =>
        [Plain("year", "sint32"), Plain("month", "sint32"), Plain("day", "sint32")]
      case DatetimeTzValue =>
        [Plain("timestamp", "sint64"), Plain("offset_minutes", "sint32")]
      case ExecutionLog =>
        [Plain("sequence", "uint32"), Plain("stream", STREAM_ENUM), Plain("content", "string"), Plain("emitted_at", "string")]
      case Execution =>
        [Plain("request_id", "string"), Plain("service", "string"), Plain("revision", "string"),
         Plain("endpoint", "string"), Plain("status", STATUS_ENUM), Plain("error", "string"),
         Field("logs", ExecutionLog.Name(), true, 0), Plain("log_bytes", "uint64"), Plain("logs_truncated", "bool")]
    }
  }

  function Declare(t: Table, name: string, direction: Direction, origin: Origin): Result<Table, Failure> {
    if name in t.origins && t.origins[name] != origin then Err(GenerationError)
    else Ok(Table(
      if name in t.messages then t.messages else t.messages[name := Shape(direction, [], {}, {})],
      t.origins[name := origin]))
  }

  function Append(t: Table, name: string, fields: seq<Field>): Table {
    if name in t.messages
    then t.(messages := t.messages[name := t.messages[name].(fields := t.messages[name].fields + fields)])
    else t
  }

  function EnsurePlatform(t: Table, kind: PlatformMessage, direction: Direction): Result<Table, Failure> {
    match Declare(t, kind.Name(), direction, Platform(kind))
    case Err(e) => Err(e)
    case Ok(d) =>
      Ok(if kind.Name() in d.messages && d.messages[kind.Name()].fields == []
         then Append(d, kind.Name(), kind.Fields()) else d)
  }

  function AddField(t: Table, parent: string, name: string, schema: Schema, direction: Direction, origin: Origin)
    : Result<(Table, Field), Failure>
    requires origin.Path?
    decreases schema, 2, 0
  {
    if !IsIdentifier(name) then Err(GenerationError)
    else match schema
      case Primitive(typeName) => (
        match ScalarType(typeName)
        case None => Err(GenerationError)
        case Some(scalar) => Ok((t, Plain(name, scalar))))
      case Date => WithType(EnsurePlatform(t, DateValue, direction), name, DateValue.Name())
      case DatetimeTz => WithType(EnsurePlatform(t, DatetimeTzValue, direction), name, DatetimeTzValue.Name())
      case Struct(closed, properties) =>
        if !closed || Pascal(name).None? then Err(GenerationError)
        else
          var nested := parent + Pascal(name).value;
          WithType(AddNested(t, nested, schema, direction, origin), name, nested)
      case List(item) =>
        if item.List? || item.ListWithoutItems? then Err(GenerationError)
        else
          (match AddField(t, parent, name, item, direction, origin.Child("items"))
          case Err(e) => Err(e)
          case Ok((d, f)) => Ok((d, f.(repeated := true))))
      case ListWithoutItems => Err(GenerationError)
  }

  function WithType(r: Result<Table, Failure>, name: string, typeName: string): Result<(Table, Field), Failure> {
    match r
    case Err(e) => Err(e)
    case Ok(t) => Ok((t, Plain(name, typeName)))
  }

  /** Declares the message of a Struct and fills it. */
  function AddNested(t: Table, nested: string, struct: Schema, direction: Direction, origin: Origin): Result<Table, Failure>
    requires origin.Path? && struct.Struct?
    decreases struct, 1, 0
  {
    match Declare(t, nested, direction, origin)
    case Err(e) => Err(e)
    case Ok(d) => AddProperties(d, nested, struct, Sorted(struct.properties.Keys), direction, origin)
  }

  /** Adds one field to `owner` for each of the named properties of a Struct. */
  function AddProperties(t: Table, owner: string, struct: Schema, names: seq<string>, direction: Direction, origin: Origin)
    : Result<Table, Failure>
    requires origin.Path? && struct.Struct? && forall n | n in names :: n in struct.properties
    decreases struct, 0, |names|
  {
    if names == [] then Ok(t)
    else
      match AddField(t, owner, names[0], struct.properties[names[0]], direction, origin.Child(names[0]))
      case Err(e) => Err(e)
      case Ok((d, f)) => AddProperties(Append(d, owner, [f]), owner, struct, names[1..], direction, origin)
  }

  // ---------------------------------------------------------------- endpoints

  /** The state of the loop over endpoints; `response` is the loop's local of that name. */
  datatype Progress = Progress(table: Table, methods: seq<string>, response: Option<string>)

  const START := Progress(EMPTY_TABLE, [], None)

  function RequestName(rpc: string): string { rpc + "Request" }

  function ResponseName(rpc: string): string { rpc + "Response" }

  /** A Struct response with no property. */
  predicate EmptyResponse(e: Endpoint) {
    e.response.Struct? && e.response.properties == map[]
  }

  function AddRequest(t: Table, rpc: string, e: Endpoint): Result<Table, Failure> {
    AddNested(t, RequestName(rpc), e.RequestSchema(), Request, Path(e.id, Request, []))
  }

  /** A response that is not a Struct is wrapped as the single field `result`. */
  function ResponseStruct(e: Endpoint): (s: Schema)
    ensures s.Struct?
    ensures !e.response.Struct? ==> s.properties.Keys == {"result"} && s.properties["result"] == e.response
  {
    if e.response.Struct? then e.response else Struct(true, map["result" := e.response])
  }

  function AddResponse(t: Table, rpc: string, e: Endpoint): Result<Table, Failure> {
    if e.response.Struct? && (!e.response.closed || "execution" in e.response.properties) then Err(GenerationError)
    else AddNested(t, ResponseName(rpc), ResponseStruct(e), Response, Path(e.id, Response, []))
  }

  function EnsureExecution(t: Table): Result<Table, Failure> {
    match EnsurePlatform(t, ExecutionLog, Response)
    case Err(e) => Err(e)
    case Ok(d) => EnsurePlatform(d, Execution, Response)
  }

  /** The request, response and execution messages of one endpoint. */
  function AddMessages(t: Table, rpc: string, e: Endpoint): Result<Table, Failure> {
    match AddRequest(t, rpc, e)
    case Err(f) => Err(f)
    case Ok(t1) =>
      match AddResponse(t1, rpc, e)
      case Err(f) => Err(f)
      case Ok(t2) => EnsureExecution(t2)
  }

  /** The message that the loop's local `response` denotes after this endpoint's properties. */
  function ResponseLocal(p: Progress, rpc: string, e: Endpoint): Option<string> {
    if EmptyResponse(e) then p.response else Some(ResponseName(rpc))
  }

  function AddEndpoint(p: Progress, e: Endpoint): Result<Progress, Failure> {
    match Pascal(e.id)
    case None => Err(GenerationError)
    case Some(rpc) =>
      if rpc in p.methods then Err(GenerationError)
      else match AddMessages(p.table, rpc, e)
        case Err(f) => Err(f)
        case Ok(t) =>
          match ResponseLocal(p, rpc, e)
          case None => Err(UnboundResponse)
          case Some(response) =>
            Ok(Progress(Append(t, response, [Plain("execution", Execution.Name())]), p.methods + [rpc], Some(response)))
  }

  function AddEndpoints(p: Progress, endpoints: seq<Endpoint>): Result<Progress, Failure>
    decreases |endpoints|
  {
    if endpoints == [] then Ok(p)
    else match AddEndpoint(p, endpoints[0])
      case Err(f) => Err(f)
      case Ok(q) => AddEndpoints(q, endpoints[1..])
  }

  function Build(endpoints: seq<Endpoint>): Result<Progress, Failure> {
    AddEndpoints(START, endpoints)
  }
}
