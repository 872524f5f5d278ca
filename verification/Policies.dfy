/** Actions, the capabilities they need, and the policies that judge them. */
module Policies {
  import opened Wrappers
  import opened CapabilitySet
  import opened Contract

  datatype SessionKey = SessionKey(workspaceRoot: Path, sessionId: string)

  /** The authority-bearing actions, plus any action another access crate may add. */
  datatype Action =
    | FsAction(path: Path)
    | FsReadAction(path: Path)
    | FsWriteAction(path: Path, content: string)
    | NetworkFetchAction(url: string)
    | SessionLoadAction(key: SessionKey)
    | SessionSaveAction(key: SessionKey, bytes: Bytes)
    | OtherAction(kind: string, caps: Capabilities, resource: AuditResource)

  /** The dynamic type by which typed policies are filed. */
  datatype ActionType = FsType | FsReadType | FsWriteType | FetchType | LoadType | SaveType | OtherType(kind: string)

  function TypeOf(a: Action): ActionType {
    match a
    case FsAction(_) => FsType
    case FsReadAction(_) => FsReadType
    case FsWriteAction(_, _) => FsWriteType
    case NetworkFetchAction(_) => FetchType
    case SessionLoadAction(_) => LoadType
    case SessionSaveAction(_, _) => SaveType
    case OtherAction(kind, _, _) => OtherType(kind)
  }

  /** The capabilities an action declares it needs. */
  function Required(a: Action): Capabilities {
    match a
    case FsReadAction(_) => Bit(CapFsRead)
    case FsWriteAction(_, _) => Bit(CapFsWrite)
    case NetworkFetchAction(_) => Bit(NetworkFetch)
    case OtherAction(_, caps, _) => caps
    case _ => EMPTY
  }

  function AuditKind(a: Action): string {
    match a
    case FsAction(_) => "fs"
    case FsReadAction(_) => "fs.read"
    case FsWriteAction(_, _) => "fs.write"
    case NetworkFetchAction(_) => "network.fetch"
    case SessionLoadAction(_) => "monty.session.load"
    case SessionSaveAction(_, _) => "monty.session.save"
    case OtherAction(kind, _, _) => kind
  }

  function Display(p: Path): string {
    if p == [] then "/"
    else if |p| == 1 then "/" + p[0]
    else Display(p[..|p| - 1]) + "/" + p[|p| - 1]
  }

  function Resource(a: Action): AuditResource {
    match a
    case FsAction(p) => PathResource(p)
    case FsReadAction(p) => PathResource(p)
    case FsWriteAction(p, _) => PathResource(p)
    case NetworkFetchAction(url) => ValueResource(url)
    case SessionLoadAction(key) => ValueResource(Display(key.workspaceRoot) + "#" + key.sessionId)
    case SessionSaveAction(key, _) => ValueResource(Display(key.workspaceRoot) + "#" + key.sessionId)
    case OtherAction(_, _, resource) => resource
  }

  datatype PolicyContext = PolicyContext(capabilities: Capabilities, workspaceRoot: Path)

  /** A policy is any pure judgement of an action in a context. */
  datatype Policy = Policy(name: string, grant: (PolicyContext, Action) -> PolicyGrant)

  function AllowFor(reason: string): PolicyGrant { PolicyGrant(Allow, Some(reason)) }

  function DenyFor(reason: string): PolicyGrant { PolicyGrant(Deny, Some(reason)) }

  function AbstainFor(reason: string): PolicyGrant { PolicyGrant(Abstain, Some(reason)) }

  function EnvelopeGrant(ctx: PolicyContext, a: Action): PolicyGrant {
    if Contains(ctx.capabilities, Required(a)) then AbstainFor("action is within declared capability envelope")
    else DenyFor("action exceeds declared capability envelope")
  }

  const CAPABILITY_ENVELOPE_POLICY := Policy("policy.capability_envelope", EnvelopeGrant)

  /** A typed policy seen as a global one: it abstains on every other action type. */
  function PolicyAnyWrapper(actionType: ActionType, inner: Policy): Policy {
    Policy(inner.name, (ctx: PolicyContext, a: Action) =>
      if TypeOf(a) == actionType then inner.grant(ctx, a)
      else AbstainFor("policy does not apply to this action type"))
  }

  const ALLOW_ALL_POLICY := Policy("policy.default_allow", (ctx: PolicyContext, a: Action) =>
    AllowFor("default allow policy granted action"))

  const ALLOW_WORKSPACE_FS_POLICY := Policy("fs.allow_path", (ctx: PolicyContext, a: Action) =>
    if !a.FsAction? then AbstainFor("policy does not apply to this action type")
    else if ctx.workspaceRoot <= a.path then AllowFor("filesystem path is under workspace root")
    else DenyFor("filesystem path is outside workspace root"))

  function ExactFileReadPolicy(allowed: Path): Policy {
    Policy("fs.allow_exact_file_read", (ctx: PolicyContext, a: Action) =>
      if a.FsReadAction? && a.path == allowed then AllowFor("read path matches exact allowed file")
      else AbstainFor("read path does not match exact allowed file"))
  }

  function FileReadPrefixPolicy(prefix: Path): Policy {
    Policy("fs.allow_file_read_prefix", (ctx: PolicyContext, a: Action) =>
      if a.FsReadAction? && prefix <= a.path then AllowFor("read path is under allowed prefix")
      else AbstainFor("read path is outside allowed prefix"))
  }

  const WORKSPACE_READ_POLICY := Policy("fs.allow_workspace_read", (ctx: PolicyContext, a: Action) =>
    if a.FsReadAction? && ctx.workspaceRoot <= a.path then AllowFor("read path is under workspace root")
    else AbstainFor("read path is outside workspace root"))

  function ExactFileWritePolicy(allowed: Path): Policy {
    Policy("fs.allow_exact_file_write", (ctx: PolicyContext, a: Action) =>
      if a.FsWriteAction? && a.path == allowed then AllowFor("write path matches exact allowed file")
      else AbstainFor("write path does not match exact allowed file"))
  }

  function FileWritePrefixPolicy(prefix: Path): Policy {
    Policy("fs.allow_file_write_prefix", (ctx: PolicyContext, a: Action) =>
      if a.FsWriteAction? && prefix <= a.path then AllowFor("write path is under allowed prefix")
      else AbstainFor("write path is outside allowed prefix"))
  }

  const WORKSPACE_WRITE_POLICY := Policy("fs.allow_workspace_write", (ctx: PolicyContext, a: Action) =>
    if a.FsWriteAction? && ctx.workspaceRoot <= a.path then AllowFor("write path is under workspace root")
    else AbstainFor("write path is outside workspace root"))
}
