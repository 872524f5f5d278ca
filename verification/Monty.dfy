/** The Monty tool: the conversation with the interpreter, and the session around it. */
module Monty {
  import opened Wrappers
  import opened CapabilitySet
  import opened Contract
  import opened Json
  import opened Kernel
  import opened Invocation
  import opened Builtin
  import opened Bridge

  datatype MontyTool = MontyTool(exposedTools: map<string, Value>, osTool: Value)

  type Reply = Result<ToolOutcome, ToolError>

  /**
   * What the interpreter does next, together with the answer the host would give a nested call made now.
   * `StartError` is the interpreter failing when started or resumed.
   */
  datatype ReplProgress =
    | Complete(value: MontyObject)
    | NameLookup(name: string)
    | FunctionCall(name: string, args: seq<MontyObject>, kwargs: seq<Pair>, methodCall: bool, reply: Reply)
    | OsCall(name: string, args: seq<MontyObject>, kwargs: seq<Pair>, reply: Reply)
    | ResolveFutures
    | StartError(summary: string)

  /** What the tool sends back into the interpreter. */
  datatype Resume =
    | FunctionName(name: string)
    | Undefined
    | NotFound(name: string)
    | Returned(value: MontyObject)
    | Raised

  datatype NestedCall = NestedCall(path: string, capabilitiesOverride: Option<Capabilities>, payload: Value)

  datatype DriveResult =
    | Completed(value: MontyObject, classification: OutputClassification)
    | Failed(message: string)
    | Unfinished // the events ran out: the interpreter is still running

  datatype Drive = Drive(result: DriveResult, calls: seq<NestedCall>, resumes: seq<Resume>)

  function Rank(c: OutputClassification): nat {
    match c
    case Public => 0
    case WorkspaceLocal => 1
    case Sensitive => 2
  }

  function Merge(current: OutputClassification, next: OutputClassification): OutputClassification {
    if Rank(next) > Rank(current) then next else current
  }

  /** The payload of an exposed tool: one lone dictionary as it is, anything else wrapped. */
  function ToolPayload(args: seq<MontyObject>, kwargs: seq<Pair>): Result<Value, string> {
    if kwargs == [] && |args| == 1 then
      match MontyToJson(args[0])
      case Err(e) => Err(e)
      case Ok(Object(fields)) => Ok(Object(fields))
      case Ok(_) => WrappedPayload(args, kwargs)
    else WrappedPayload(args, kwargs)
  }

  function WrappedPayload(args: seq<MontyObject>, kwargs: seq<Pair>): Result<Value, string> {
    match ListToJson(args)
    case Err(e) => Err(e)
    case Ok(list) =>
      match PairsToJson(kwargs)
      case Err(e) => Err(e)
      case Ok(named) => Ok(Object(map["args" := list, "kwargs" := named]))
  }

  function OsPayload(name: string, args: seq<MontyObject>, kwargs: seq<Pair>): Result<Value, string> {
    match WrappedPayload(args, kwargs)
    case Ok(Object(fields)) => Ok(Object(fields["function" := Str(name)]))
    case other => other
  }

  /** One event's effect on the conversation. */
  datatype Turn =
    | Ends(result: DriveResult)
    | Goes(resume: Resume, call: Option<NestedCall>, seen: Option<OutputClassification>)

  /** A nested call inherits the frame's capabilities: it never carries an override. */
  function CallTurn(round: U64 -> real, toolPath: Value, payload: Value, reply: Reply): Turn {
    match DecodeToolPath(toolPath)
    case Err(_) => Goes(Raised, None, None)
    case Ok(path) =>
      var call := Some(NestedCall(path, None, payload));
      match reply
      case Err(_) => Goes(Raised, call, None)
      case Ok(outcome) =>
        var resume := match JsonToMonty(round, outcome.payload) case Ok(value) => Returned(value) case Err(_) => Raised;
        Goes(resume, call, Some(outcome.classification))
  }

  function TurnOf(tool: MontyTool, round: U64 -> real, e: ReplProgress, sofar: OutputClassification): Turn {
    match e
    case Complete(value) => Ends(Completed(value, sofar))
    case NameLookup(name) => Goes(if name in tool.exposedTools then FunctionName(name) else Undefined, None, None)
    case FunctionCall(name, args, kwargs, methodCall, reply) =>
      if methodCall || name !in tool.exposedTools then Goes(NotFound(name), None, None)
      else
        (match ToolPayload(args, kwargs)
         case Err(_) => Goes(Raised, None, None)
         case Ok(payload) => CallTurn(round, tool.exposedTools[name], payload, reply))
    case OsCall(name, args, kwargs, reply) =>
      (match OsPayload(name, args, kwargs)
       case Err(message) => Ends(Failed(message))
       case Ok(payload) => CallTurn(round, tool.osTool, payload, reply))
    case ResolveFutures => Ends(Failed("async Monty futures are not wired yet"))
    case StartError(summary) => Ends(Failed(summary))
  }

  function Added<T>(xs: seq<T>, x: Option<T>): seq<T> {
    if x.Some? then xs + [x.value] else xs
  }

  function MergeSeen(sofar: OutputClassification, seen: Option<OutputClassification>): OutputClassification {
    if seen.Some? then Merge(sofar, seen.value) else sofar
  }

  /** The whole conversation, continuing from what was sent and seen so far. */
  function DriveFrom(
    tool: MontyTool, round: U64 -> real, events: seq<ReplProgress>, sofar: OutputClassification,
    calls: seq<NestedCall>, resumes: seq<Resume>): Drive
  {
    if events == [] then Drive(Unfinished, calls, resumes)
    else
      match TurnOf(tool, round, events[0], sofar)
      case Ends(result) => Drive(result, calls, resumes)
      case Goes(resume, call, seen) =>
        DriveFrom(tool, round, events[1..], MergeSeen(sofar, seen), Added(calls, call), resumes + [resume])
  }

  /** The source's loop: `progress` is replaced each time round and `classification` only ever rises. */
  method DriveLoop(tool: MontyTool, round: U64 -> real, events: seq<ReplProgress>) returns (d: Drive)
    ensures d == DriveFrom(tool, round, events, Public, [], [])
  {
    var classification := Public;
    var calls: seq<NestedCall>, resumes: seq<Resume> := [], [];
    var i := 0;
    assert events[0..] == events;
    while i < |events|
      invariant 0 <= i <= |events|
      invariant DriveFrom(tool, round, events, Public, [], []) ==
                DriveFrom(tool, round, events[i..], classification, calls, resumes)
    {
      var progress := events[i];
      assert events[i..][0] == progress && events[i..][1..] == events[i + 1..];
      match progress {
        case Complete(value) =>
          return Drive(Completed(value, classification), calls, resumes);
        case NameLookup(name) =>
          resumes := resumes + [if name in tool.exposedTools then FunctionName(name) else Undefined];
        case FunctionCall(name, args, kwargs, methodCall, reply) =>
          if methodCall || name !in tool.exposedTools {
            resumes := resumes + [NotFound(name)];
          } else {
            match ToolPayload(args, kwargs) {
              case Err(_) =>
                resumes := resumes + [Raised];
              case Ok(payload) =>
                classification, calls, resumes :=
                  NestedTurn(round, tool.exposedTools[name], payload, reply, classification, calls, resumes);
            }
          }
        case OsCall(name, args, kwargs, reply) =>
          match OsPayload(name, args, kwargs) {
            case Err(message) =>
              return Drive(Failed(message), calls, resumes);
            case Ok(payload) =>
              classification, calls, resumes :=
                NestedTurn(round, tool.osTool, payload, reply, classification, calls, resumes);
          }
        case ResolveFutures =>
          return Drive(Failed("async Monty futures are not wired yet"), calls, resumes);
        case StartError(summary) =>
          return Drive(Failed(summary), calls, resumes);
      }
      i := i + 1;
    }
    d := Drive(Unfinished, calls, resumes);
  }

  method NestedTurn(
      round: U64 -> real, toolPath: Value, payload: Value, reply: Reply,
      classification: OutputClassification, calls: seq<NestedCall>, resumes: seq<Resume>)
    returns (classification': OutputClassification, calls': seq<NestedCall>, resumes': seq<Resume>)
    ensures
      var turn := CallTurn(round, toolPath, payload, reply);
      && classification' == MergeSeen(classification, turn.seen)
      && calls' == Added(calls, turn.call)
      && resumes' == resumes + [turn.resume]
  {
    classification', calls', resumes' := classification, calls, resumes;
    match DecodeToolPath(toolPath) {
      case Err(_) =>
        resumes' := resumes' + [Raised];
      case Ok(path) =>
        calls' := calls' + [NestedCall(path, None, payload)];
        match reply {
          case Err(_) =>
            resumes' := resumes' + [Raised];
          case Ok(outcome) =>
            classification' := Merge(classification', outcome.classification);
            match JsonToMonty(round, outcome.payload) {
              case Ok(value) => resumes' := resumes' + [Returned(value)];
              case Err(_) => resumes' := resumes' + [Raised];
            }
        }
    }
  }

  // ----- The tool around the conversation -----

  /** The frame's own session operations, in order. */
  datatype SessionOp = Load(sessionId: string) | Save(sessionId: string, bytes: Bytes)

  /** Everything outside the tool's own code: store answers, the interpreter's codec, and the conversation. */
  datatype Environment = Environment(
    loaded: Result<Option<Bytes>, ExecutionError>,
    decodes: bool,
    events: seq<ReplProgress>,
    dump: Result<Bytes, string>,
    saved: Result<(), ExecutionError>)

  function OtherFailure<T>(message: string): Result<T, ToolError> {
    Err(ExecutionFailed(OtherError(message)))
  }

  /** Load, drive, save, then convert the value. `None` while the conversation is unfinished. */
  method Execute(tool: MontyTool, round: U64 -> real, sessionId: string, env: Environment)
    returns (r: Option<Result<ToolOutcome, ToolError>>, ops: seq<SessionOp>)
    ensures
      var d := DriveFrom(tool, round, env.events, Public, [], []);
      && ops == [Load(sessionId)] + (if SavesSession(env, d) then [Save(sessionId, env.dump.value)] else [])
      && (r == None <==> LoadsSession(env) && d.result.Unfinished?)
      && (r.Some? && r.value.Ok? <==> SavesSession(env, d) && env.saved.Ok? && MontyToJson(d.result.value).Ok?)
      && (r.Some? && r.value.Ok? ==>
            r.value.value == ToolOutcome(
              Object(map["value" := MontyToJson(d.result.value).value, "session_id" := Str(sessionId)]),
              d.result.classification))
      && (env.loaded.Err? ==> r == Some(Err(ExecutionFailed(env.loaded.error))))
      && (SavesSession(env, d) && env.saved.Err? ==> r == Some(Err(ExecutionFailed(env.saved.error))))
      && (env.loaded.Ok? && env.loaded.value.Some? && !env.decodes ==>
            r == Some(OtherFailure("invalid Monty session")) && ops == [Load(sessionId)])
      && (env.loaded == Ok(None) || (env.loaded.Ok? && env.decodes) ==>
            (d.result.Failed? ==> r == Some(OtherFailure(d.result.message)) && ops == [Load(sessionId)])
            && (d.result.Completed? && env.dump.Err? ==>
                  r == Some(OtherFailure("failed to serialize Monty session")) && ops == [Load(sessionId)])
            && (d.result.Completed? && env.dump.Ok? ==>
                  ops == [Load(sessionId), Save(sessionId, env.dump.value)]))
      && (r.Some? && r.value.Err? ==> r.value.error.ExecutionFailed?)
  {
    ops := [Load(sessionId)];
    match env.loaded {
      case Err(e) =>
        return Some(Err(ExecutionFailed(e))), ops;
      case Ok(Some(bytes)) =>
        if !env.decodes {
          return Some(OtherFailure("invalid Monty session")), ops;
        }
      case Ok(None) =>
    }
    var drive := DriveLoop(tool, round, env.events);
    match drive.result {
      case Unfinished => return None, ops;
      case Failed(message) => return Some(OtherFailure(message)), ops;
      case Completed(value, classification) =>
        if env.dump.Err? {
          return Some(OtherFailure("failed to serialize Monty session")), ops;
        }
        ops := ops + [Save(sessionId, env.dump.value)];
        if env.saved.Err? {
          return Some(Err(ExecutionFailed(env.saved.error))), ops;
        }
        match MontyToJson(value) {
          case Err(message) => return Some(OtherFailure(message)), ops;
          case Ok(json) =>
            return Some(Ok(ToolOutcome(Object(map["value" := json, "session_id" := Str(sessionId)]), classification))), ops;
        }
    }
  }

  predicate LoadsSession(env: Environment) {
    env.loaded.Ok? && (env.loaded.value.Some? ==> env.decodes)
  }

  /** The session is saved exactly when it loaded, the conversation completed and its state serialized. */
  predicate SavesSession(env: Environment, d: Drive) {
    LoadsSession(env) && d.result.Completed? && env.dump.Ok?
  }
}
