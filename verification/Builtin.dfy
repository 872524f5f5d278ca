/** A host with the builtin tools: reading a file, writing a file, and running another tool twice. */
module Builtin {
  import opened Wrappers
  import opened CapabilitySet
  import opened Contract
  import opened Json
  import opened Paths
  import opened Policies
  import opened Registry
  import opened Pipeline
  import opened Kernel
  import opened Invocation

  datatype Tool = ReadFileTool | WriteFileTool | Double

  datatype Host = Host(policies: View, tools: map<string, (Capabilities, Tool)>)

  /** The world and the paths of the tools invoked so far. */
  datatype HostState = HostState(world: World, invoked: seq<string>)

  function RunRead(h: Host, s: HostState, cx: ToolContext, payload: Value)
    : (HostState, Result<ToolOutcome, ToolError>)
  {
    match GetStr(payload, "path")
    case None => (s, Err(InvalidInput(MissingField("path"))))
    case Some(path) =>
      var (w, r) := Reading(h.policies, s.world, cx.PolicyView(), ParsePath(path));
      (s.(world := w),
       match r
       case Ok(content) => Ok(ToolOutcome(Object(map["content" := Str(content)]), WorkspaceLocal))
       case Err(e) => Err(ExecutionFailed(e)))
  }

  function RunWrite(h: Host, s: HostState, cx: ToolContext, payload: Value)
    : (HostState, Result<ToolOutcome, ToolError>)
  {
    match GetStr(payload, "path")
    case None => (s, Err(InvalidInput(MissingField("path"))))
    case Some(path) =>
      match GetStr(payload, "content")
      case None => (s, Err(InvalidInput(MissingField("content"))))
      case Some(content) =>
        var (w, r) := Writing(h.policies, s.world, cx.PolicyView(), ParsePath(path), content);
        (s.(world := w),
         match r
         case Ok(_) => Ok(ToolOutcome(Object(map["ok" := Bool(true)]), Public))
         case Err(e) => Err(ExecutionFailed(e)))
  }

  function DecodeToolPath(v: Value): Result<string, InputError> {
    match AsStr(v)
    case Some(path) => Ok(path)
    case None => Err(InvalidField("tool_path"))
  }

  function ParseDouble(payload: Value): (r: Result<(string, Value), InputError>)
    ensures r.Ok? <==> GetStr(payload, "path").Some? && Get(payload, "payload").Some?
    ensures r.Ok? ==>
      && GetStr(payload, "path") == Some(r.value.0)
      && payload.Object? && "payload" in payload.fields && r.value.1 == payload.fields["payload"]
    ensures r.Err? ==>
      r.error == if Get(payload, "path") == None then MissingField("path")
                 else if GetStr(payload, "path") == None then InvalidField("tool_path")
                 else MissingField("payload")
  {
    match Get(payload, "path")
    case None => Err(MissingField("path"))
    case Some(pathValue) =>
      match DecodeToolPath(pathValue)
      case Err(e) => Err(e)
      case Ok(path) =>
        match Get(payload, "payload")
        case None => Err(MissingField("payload"))
        case Some(inner) => Ok((path, inner))
  }

  /** One invocation; a nested one works on a strictly smaller payload, so every payload terminates. */
  function Invoke(h: Host, s: HostState, path: string, params: InvocationParams, payload: Value)
    : (HostState, Result<ToolOutcome, ToolError>)
    decreases payload
  {
    if path !in h.tools then (s, Err(UnknownTool(path)))
    else
      match NewContext(s.world.tree, path, h.tools[path].0, params)
      case Err(e) => (s, Err(NotAuthorized(e)))
      case Ok(cx) =>
        var s1 := s.(invoked := s.invoked + [path]);
        match h.tools[path].1
        case ReadFileTool => RunRead(h, s1, cx, payload)
        case WriteFileTool => RunWrite(h, s1, cx, payload)
        case Double =>
          match ParseDouble(payload)
          case Err(e) => (s1, Err(InvalidInput(e)))
          case Ok((target, inner)) =>
            match NestedParams(cx, None)
            case Err(e) => (s1, Err(NotAuthorized(e)))
            case Ok(nested) =>
              var (s2, first) := Invoke(h, s1, target, nested, inner);
              if first.Err? then (s2, first) else Invoke(h, s2, target, nested, inner)
  }
}
