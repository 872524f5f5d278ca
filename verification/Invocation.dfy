/** The tool host: registration, invocation contexts and how authority passes to nested calls. */
module Invocation {
  import opened Wrappers
  import opened CapabilitySet
  import opened Contract
  import opened Json
  import opened Paths
  import opened Policies
  import opened Kernel

  datatype InputError = MissingField(name: string) | InvalidField(name: string)

  datatype ToolError =
    | UnknownTool(path: string)
    | DuplicateTool(path: string)
    | InvalidSpec
    | InvalidInput(input: InputError)
    | NotAuthorized(authorization: AuthorizationError)
    | ExecutionFailed(execution: ExecutionError)

  datatype ToolOutcome = ToolOutcome(payload: Value, classification: OutputClassification)

  datatype ToolSpec = ToolSpec(name: string, capabilities: Capabilities)

  datatype InvocationParams = InvocationParams(workspaceRoot: seq<Component>, capabilitiesOverride: Option<Capabilities>)

  datatype ToolContext = ToolContext(toolPath: string, effective: Capabilities, root: Path)
  {
    function PolicyView(): PolicyContext {
      PolicyContext(effective, root)
    }
  }

  function NewContext(tree: Tree, toolPath: string, declared: Capabilities, params: InvocationParams)
    : Result<ToolContext, AuthorizationError>
  {
    match Existing(tree, params.workspaceRoot)
    case Err(e) => Err(e)
    case Ok(root) =>
      var effective := match params.capabilitiesOverride case Some(caps) => caps case None => declared;
      Ok(ToolContext(toolPath, effective, root))
  }

  /** What a frame passes down; asking for more than it has is refused. */
  function NestedParams(cx: ToolContext, capabilitiesOverride: Option<Capabilities>)
    : Result<InvocationParams, AuthorizationError>
  {
    match capabilitiesOverride
    case Some(caps) =>
      if !Contains(cx.effective, caps) then
        Err(Denied("nested invocation attempted to expand capabilities", None))
      else Ok(InvocationParams(Names(cx.root), Some(caps)))
    case None => Ok(InvocationParams(Names(cx.root), Some(cx.effective)))
  }

  /** The tool table; `K` is whatever implements a tool. */
  class App<K> {
    var tools: map<string, (ToolSpec, K)>

    constructor ()
      ensures tools == map[]
    {
      tools := map[];
    }

    /** A path keeps its first tool for good. */
    method RegisterTool(path: string, spec: ToolSpec, tool: K) returns (r: Result<(), ToolError>)
      modifies this
      ensures r.Ok? <==> path !in old(tools) && spec.name != ""
      ensures r.Err? ==> r.error == if path in old(tools) then DuplicateTool(path) else InvalidSpec
      ensures tools == if r.Ok? then old(tools)[path := (spec, tool)] else old(tools)
    {
      if path in tools {
        return Err(DuplicateTool(path));
      }
      if spec.name == "" {
        return Err(InvalidSpec);
      }
      tools := tools[path := (spec, tool)];
      r := Ok(());
    }
  }
}
