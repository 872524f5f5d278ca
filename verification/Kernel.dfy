/** The kernel runtime and the access facades: resolve, ask for grants, then perform the effect. */
module Kernel {
  import opened Wrappers
  import opened CapabilitySet
  import opened Contract
  import opened Paths
  import opened Policies
  import opened Registry
  import opened Pipeline

  datatype ExecutionError =
    | AuthorizationFailed(error: AuthorizationError)
    | CapabilityIo
    | CapabilityDenied
    | OtherError(message: string)
    | Panicked // the facade's `expect` on the workspace root

  /** Everything the facades can observe or change, as a value. */
  datatype World = World(tree: Tree, sessions: map<SessionKey, Bytes>, nextGrant: nat, grants: seq<GrantRecord>)

  // ----- The facades as functions -----

  /** One grant request. */
  function Granting(v: View, w: World, ctx: PolicyContext, a: Action): (World, Result<Granted, AuthorizationError>) {
    var record := RecordFor(v, w.nextGrant, ctx, a);
    (w.(nextGrant := IdAfter(record, w.nextGrant), grants := w.grants + [record]), GrantResult(record, a))
  }

  /** The parent action, then the concrete one; the first refusal ends it. */
  function GrantingBoth(v: View, w: World, ctx: PolicyContext, parent: Action, a: Action)
    : (World, Result<Granted, AuthorizationError>)
  {
    var (w1, first) := Granting(v, w, ctx, parent);
    if first.Err? then (w1, first) else Granting(v, w1, ctx, a)
  }

  function Reading(v: View, w: World, ctx: PolicyContext, path: RawPath): (World, Result<string, ExecutionError>) {
    match Existing(w.tree, Names(ctx.workspaceRoot))
    case Err(_) => (w, Err(Panicked))
    case Ok(root) =>
      match ResolveRead(w.tree, root, path)
      case Err(e) => (w, Err(AuthorizationFailed(e)))
      case Ok(p) =>
        var (w1, granted) := GrantingBoth(v, w, ctx, FsAction(p), FsReadAction(p));
        match granted
        case Err(e) => (w1, Err(AuthorizationFailed(e)))
        case Ok(_) =>
          match ReadFile(w1.tree, p)
          case Some(content) => (w1, Ok(content))
          case None => (w1, Err(CapabilityIo))
  }

  function Writing(v: View, w: World, ctx: PolicyContext, path: RawPath, content: string)
    : (World, Result<(), ExecutionError>)
  {
    match Existing(w.tree, Names(ctx.workspaceRoot))
    case Err(_) => (w, Err(Panicked))
    case Ok(root) =>
      match ResolveWrite(w.tree, root, path)
      case Err(e) => (w, Err(AuthorizationFailed(e)))
      case Ok(p) =>
        var (w1, granted) := GrantingBoth(v, w, ctx, FsAction(p), FsWriteAction(p, content));
        match granted
        case Err(e) => (w1, Err(AuthorizationFailed(e)))
        case Ok(_) =>
          match WriteFile(w1.tree, p, content)
          case Some(tree) => (w1.(tree := tree), Ok(()))
          case None => (w1, Err(CapabilityIo))
  }

  /** The kernel's network backend refuses every granted fetch. */
  function Fetching(v: View, w: World, ctx: PolicyContext, url: string): (World, Result<Bytes, ExecutionError>) {
    var (w1, granted) := Granting(v, w, ctx, NetworkFetchAction(url));
    (w1, Err(if granted.Err? then AuthorizationFailed(granted.error) else CapabilityDenied))
  }

  function Loading(v: View, w: World, ctx: PolicyContext, sessionId: string)
    : (World, Result<Option<Bytes>, ExecutionError>)
  {
    var key := SessionKey(ctx.workspaceRoot, sessionId);
    var (w1, granted) := Granting(v, w, ctx, SessionLoadAction(key));
    match granted
    case Err(e) => (w1, Err(AuthorizationFailed(e)))
    case Ok(_) => (w1, Ok(if key in w1.sessions then Some(w1.sessions[key]) else None))
  }

  function Saving(v: View, w: World, ctx: PolicyContext, sessionId: string, bytes: Bytes)
    : (World, Result<(), ExecutionError>)
  {
    var key := SessionKey(ctx.workspaceRoot, sessionId);
    var (w1, granted) := Granting(v, w, ctx, SessionSaveAction(key, bytes));
    match granted
    case Err(e) => (w1, Err(AuthorizationFailed(e)))
    case Ok(_) => (w1.(sessions := w1.sessions[key := bytes]), Ok(()))
  }

  /** A saved session is what a later allowed load under its workspace and id finds, and no other load sees it. */
  lemma SavedSessionLoads(
      v: View, w: World, ctx: PolicyContext, sessionId: string, bytes: Bytes, ctx': PolicyContext, sessionId': string)
    requires Saving(v, w, ctx, sessionId, bytes).1.Ok?
    ensures
      var saved := Saving(v, w, ctx, sessionId, bytes).0;
      var found, before := Loading(v, saved, ctx', sessionId').1, Loading(v, w, ctx', sessionId').1;
      && (found.Ok? <==> Allowed(v, ctx', SessionLoadAction(SessionKey(ctx'.workspaceRoot, sessionId'))))
      && (found.Ok? ==>
            found == if ctx'.workspaceRoot == ctx.workspaceRoot && sessionId' == sessionId then Ok(Some(bytes)) else before)
  {
  }

  /** An allowed load finds what is stored under its workspace and id, and nothing where nothing was saved. */
  lemma LoadFindsWhatIsStored(v: View, w: World, ctx: PolicyContext, sessionId: string)
    ensures
      var key, (after, found) := SessionKey(ctx.workspaceRoot, sessionId), Loading(v, w, ctx, sessionId);
      && after.tree == w.tree && after.sessions == w.sessions
      && (Allowed(v, ctx, SessionLoadAction(key)) && key !in w.sessions ==> found == Ok(None))
      && (Allowed(v, ctx, SessionLoadAction(key)) && key in w.sessions ==> found == Ok(Some(w.sessions[key])))
      && (!Allowed(v, ctx, SessionLoadAction(key)) ==> found.Err? && found.error.AuthorizationFailed?)
  {
  }

  /** A fetch never succeeds: the backend refuses it when the policies allow it, and they refuse it otherwise. */
  lemma FetchIsRefused(v: View, w: World, ctx: PolicyContext, url: string)
    ensures
      var (after, r) := Fetching(v, w, ctx, url);
      && r.Err? && (if Allowed(v, ctx, NetworkFetchAction(url)) then r.error == CapabilityDenied
                    else r.error.AuthorizationFailed?)
      && after.tree == w.tree && after.sessions == w.sessions && |after.grants| == |w.grants| + 1
  {
  }

  /** A save succeeds exactly when it is allowed, and then changes one session; a refused one changes none. */
  lemma SavesIffAllowed(v: View, w: World, ctx: PolicyContext, sessionId: string, bytes: Bytes)
    ensures
      var key, (after, r) := SessionKey(ctx.workspaceRoot, sessionId), Saving(v, w, ctx, sessionId, bytes);
      && (r.Ok? <==> Allowed(v, ctx, SessionSaveAction(key, bytes)))
      && (r.Err? ==> r.error.AuthorizationFailed?)
      && after.tree == w.tree && |after.grants| == |w.grants| + 1
      && after.sessions == if r.Ok? then w.sessions[key := bytes] else w.sessions
  {
  }

  // ----- The runtime -----

  class MemoryMontySessionStore {
    var sessions: map<SessionKey, Bytes>

    constructor ()
      ensures sessions == map[]
    {
      sessions := map[];
    }

    method Load(granted: Granted) returns (found: Option<Bytes>)
      requires granted.action.SessionLoadAction?
      ensures found == if granted.action.key in sessions then Some(sessions[granted.action.key]) else None
    {
      var key := granted.action.key;
      found := if key in sessions then Some(sessions[key]) else None;
    }

    method Save(granted: Granted)
      requires granted.action.SessionSaveAction?
      modifies this
      ensures sessions == old(sessions)[granted.action.key := granted.action.bytes]
    {
      sessions := sessions[granted.action.key := granted.action.bytes];
    }
  }

  class KernelRuntime {
    const policy: PolicyPipeline
    const counter: GrantCounter
    const audit: AuditLog
    const montySessions: MemoryMontySessionStore
    var tree: Tree

    function Contents(): World
      reads this, montySessions, counter, audit
    {
      World(tree, montySessions.sessions, counter.next, audit.grants)
    }

    function Policies(): View
      reads policy.registry
    {
      policy.registry.Contents()
    }

    constructor (disk: Tree, grantCounter: GrantCounter)
      ensures counter == grantCounter && fresh(policy) && fresh(policy.registry) && fresh(audit) && fresh(montySessions)
      ensures Policies() == Register(EMPTY_VIEW, Registration(true, InboundSlot, CAPABILITY_ENVELOPE_POLICY))
      ensures Contents() == World(disk, map[], old(grantCounter.next), [])
    {
      var pipeline := new PolicyPipeline();
      pipeline.PrependInbound(CAPABILITY_ENVELOPE_POLICY);
      policy := pipeline;
      counter := grantCounter;
      audit := new AuditLog();
      montySessions := new MemoryMontySessionStore();
      tree := disk;
    }

    method ReadFile(ctx: PolicyContext, path: RawPath) returns (r: Result<string, ExecutionError>)
      modifies counter, audit
      ensures (Contents(), r) == Reading(Policies(), old(Contents()), ctx, path)
    {
      var root := Existing(tree, Names(ctx.workspaceRoot));
      if root.Err? {
        return Err(Panicked);
      }
      var resolved := ResolveRead(tree, root.value, path);
      if resolved.Err? {
        return Err(AuthorizationFailed(resolved.error));
      }
      var parent := policy.Grant(ctx, FsAction(resolved.value), counter, audit);
      if parent.Err? {
        return Err(AuthorizationFailed(parent.error));
      }
      var granted := policy.Grant(ctx, FsReadAction(parent.value.action.path), counter, audit);
      if granted.Err? {
        return Err(AuthorizationFailed(granted.error));
      }
      match Paths.ReadFile(tree, granted.value.action.path) {
        case Some(content) => r := Ok(content);
        case None => r := Err(CapabilityIo);
      }
    }

    method WriteFile(ctx: PolicyContext, path: RawPath, content: string) returns (r: Result<(), ExecutionError>)
      modifies this, counter, audit
      ensures (Contents(), r) == Writing(Policies(), old(Contents()), ctx, path, content)
    {
      var root := Existing(tree, Names(ctx.workspaceRoot));
      if root.Err? {
        return Err(Panicked);
      }
      var resolved := ResolveWrite(tree, root.value, path);
      if resolved.Err? {
        return Err(AuthorizationFailed(resolved.error));
      }
      var parent := policy.Grant(ctx, FsAction(resolved.value), counter, audit);
      if parent.Err? {
        return Err(AuthorizationFailed(parent.error));
      }
      var granted := policy.Grant(ctx, FsWriteAction(parent.value.action.path, content), counter, audit);
      if granted.Err? {
        return Err(AuthorizationFailed(granted.error));
      }
      match Paths.WriteFile(tree, granted.value.action.path, granted.value.action.content) {
        case Some(after) =>
          tree := after;
          r := Ok(());
        case None => r := Err(CapabilityIo);
      }
    }

    method FetchUrl(ctx: PolicyContext, url: string) returns (r: Result<Bytes, ExecutionError>)
      modifies counter, audit
      ensures (Contents(), r) == Fetching(Policies(), old(Contents()), ctx, url)
    {
      var granted := policy.Grant(ctx, NetworkFetchAction(url), counter, audit);
      if granted.Err? {
        return Err(AuthorizationFailed(granted.error));
      }
      r := Err(CapabilityDenied);
    }

    method LoadSession(ctx: PolicyContext, sessionId: string) returns (r: Result<Option<Bytes>, ExecutionError>)
      modifies counter, audit
      ensures (Contents(), r) == Loading(Policies(), old(Contents()), ctx, sessionId)
    {
      var granted := policy.Grant(ctx, SessionLoadAction(SessionKey(ctx.workspaceRoot, sessionId)), counter, audit);
      if granted.Err? {
        return Err(AuthorizationFailed(granted.error));
      }
      var found := montySessions.Load(granted.value);
      r := Ok(found);
    }

    method SaveSession(ctx: PolicyContext, sessionId: string, bytes: Bytes) returns (r: Result<(), ExecutionError>)
      modifies counter, audit, montySessions
      ensures (Contents(), r) == Saving(Policies(), old(Contents()), ctx, sessionId, bytes)
    {
      var granted := policy.Grant(ctx, SessionSaveAction(SessionKey(ctx.workspaceRoot, sessionId), bytes), counter, audit);
      if granted.Err? {
        return Err(AuthorizationFailed(granted.error));
      }
      montySessions.Save(granted.value);
      r := Ok(());
    }
  }
}
