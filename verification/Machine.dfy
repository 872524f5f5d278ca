/**
 * Whole runs of the host as a step machine.
 * Tool code is arbitrary: any live frame may start any access call or nested invocation at any time,
 * and the resolve, grant and effect steps of different calls interleave freely.
 */
module Machine {
  import opened Wrappers
  import opened CapabilitySet
  import opened Contract
  import opened Paths
  import opened Policies
  import opened Registry
  import opened Pipeline
  import opened Kernel
  import opened Invocation

  /** What stays fixed during a run: the policies and each tool's declared capabilities. */
  datatype Config = Config(policies: View, tools: map<string, Capabilities>)

  datatype Frame = Frame(parent: Option<nat>, cx: ToolContext, live: bool)

  /** How far a call has come. */
  datatype Progress = Requested | Vetted | Authorized | Performed | Refused

  datatype Call = Call(frame: nat, action: Action, progress: Progress)

  datatype Event =
    | Recorded(call: nat, asked: Action, record: GrantRecord)
    | Effect(call: nat, action: Action)

  datatype State = State(
    tree: Tree,
    sessions: map<SessionKey, Bytes>,
    nextGrant: nat,
    frames: seq<Frame>,
    calls: seq<Call>,
    log: seq<Event>,
    panicked: bool)

  datatype Request =
    | ReadRequest(path: RawPath)
    | WriteRequest(path: RawPath, content: string)
    | FetchRequest(url: string)
    | LoadRequest(sessionId: string)
    | SaveRequest(sessionId: string, bytes: Bytes)

  datatype Label =
    | Start(tool: string, root: seq<Component>, capabilitiesOverride: Option<Capabilities>)
    | Invoke(frame: nat, tool: string, capabilitiesOverride: Option<Capabilities>)
    | Begin(frame: nat, request: Request)
    | Authorize(call: nat)
    | Perform(call: nat)
    | Return(frame: nat)

  function Initial(tree: Tree, sessions: map<SessionKey, Bytes>): State {
    State(tree, sessions, 1, [], [], [], false)
  }

  predicate HasParent(a: Action) {
    a.FsReadAction? || a.FsWriteAction?
  }

  /** The first half of a facade method: from a request to the action it will ask for. */
  function Prepare(tree: Tree, cx: ToolContext, request: Request): Result<Action, ExecutionError> {
    match request
    case ReadRequest(path) =>
      (match Existing(tree, Names(cx.root))
       case Err(_) => Err(Panicked)
       case Ok(root) =>
         match ResolveRead(tree, root, path)
         case Ok(p) => Ok(FsReadAction(p))
         case Err(e) => Err(AuthorizationFailed(e)))
    case WriteRequest(path, content) =>
      (match Existing(tree, Names(cx.root))
       case Err(_) => Err(Panicked)
       case Ok(root) =>
         match ResolveWrite(tree, root, path)
         case Ok(p) => Ok(FsWriteAction(p, content))
         case Err(e) => Err(AuthorizationFailed(e)))
    case FetchRequest(url) => Ok(NetworkFetchAction(url))
    case LoadRequest(sessionId) => Ok(SessionLoadAction(SessionKey(cx.root, sessionId)))
    case SaveRequest(sessionId, bytes) => Ok(SessionSaveAction(SessionKey(cx.root, sessionId), bytes))
  }

  /** What a call asks the engine next. */
  function Asked(call: Call): Action {
    if call.progress == Requested && HasParent(call.action) then FsAction(call.action.path) else call.action
  }

  function AfterGrant(call: Call, record: GrantRecord): Progress {
    if record.decision.DenyGrant? then Refused
    else if call.progress == Requested && HasParent(call.action) then Vetted
    else Authorized
  }

  predicate LiveFrame(st: State, f: nat) {
    f < |st.frames| && st.frames[f].live
  }

  function Enter(cfg: Config, st: State, parent: Option<nat>, tool: string, params: InvocationParams): State {
    if tool !in cfg.tools then st
    else
      match NewContext(st.tree, tool, cfg.tools[tool], params)
      case Err(_) => st
      case Ok(cx) => st.(frames := st.frames + [Frame(parent, cx, true)])
  }

  function StepInvoke(cfg: Config, st: State, f: nat, tool: string, capabilitiesOverride: Option<Capabilities>): State
    requires LiveFrame(st, f)
  {
    match NestedParams(st.frames[f].cx, capabilitiesOverride)
    case Err(_) => st
    case Ok(params) => Enter(cfg, st, Some(f), tool, params)
  }

  function StepBegin(st: State, f: nat, request: Request): State
    requires LiveFrame(st, f)
  {
    match Prepare(st.tree, st.frames[f].cx, request)
    case Ok(a) => st.(calls := st.calls + [Call(f, a, Requested)])
    case Err(e) => st.(panicked := st.panicked || e.Panicked?)
  }

  function StepAuthorize(cfg: Config, st: State, c: nat): State
    requires c < |st.calls| && LiveFrame(st, st.calls[c].frame)
  {
    var call := st.calls[c];
    var record := RecordFor(cfg.policies, st.nextGrant, st.frames[call.frame].cx.PolicyView(), Asked(call));
    st.(
      nextGrant := IdAfter(record, st.nextGrant),
      calls := st.calls[c := call.(progress := AfterGrant(call, record))],
      log := st.log + [Recorded(c, Asked(call), record)])
  }

  function StepPerform(st: State, c: nat): State
    requires c < |st.calls|
  {
    var call := st.calls[c];
    var done := st.(
      calls := st.calls[c := call.(progress := Performed)],
      log := st.log + [Effect(c, call.action)]);
    match call.action
    case FsWriteAction(p, content) =>
      (match WriteFile(st.tree, p, content)
       case Some(tree) => done.(tree := tree)
       case None => done)
    case SessionSaveAction(key, bytes) => done.(sessions := st.sessions[key := bytes])
    case _ => done
  }

  /** One step; a label that does not apply changes nothing. */
  function Step(cfg: Config, st: State, l: Label): State {
    match l
    case Start(tool, root, caps) => Enter(cfg, st, None, tool, InvocationParams(root, caps))
    case Invoke(f, tool, caps) => if LiveFrame(st, f) then StepInvoke(cfg, st, f, tool, caps) else st
    case Begin(f, request) => if LiveFrame(st, f) then StepBegin(st, f, request) else st
    case Authorize(c) =>
      if c < |st.calls| && LiveFrame(st, st.calls[c].frame) && st.calls[c].progress in {Requested, Vetted}
      then StepAuthorize(cfg, st, c) else st
    case Perform(c) =>
      if c < |st.calls| && LiveFrame(st, st.calls[c].frame) && st.calls[c].progress == Authorized
      then StepPerform(st, c) else st
    case Return(f) => if LiveFrame(st, f) then st.(frames := st.frames[f := st.frames[f].(live := false)]) else st
  }

  function Run(cfg: Config, st: State, labels: seq<Label>): State {
    if labels == [] then st else Step(cfg, Run(cfg, st, labels[..|labels| - 1]), labels[|labels| - 1])
  }
}
