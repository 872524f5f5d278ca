/** Counting, transparency and monotonicity of builtin-tool runs. */
module BuiltinProofs {
  import opened Wrappers
  import opened CapabilitySet
  import opened Contract
  import opened Json
  import opened Paths
  import opened PathProofs
  import opened Policies
  import opened Registry
  import opened Pipeline
  import opened PipelineProofs
  import opened Kernel
  import opened Invocation
  import opened Builtin

  // ----- Nested doubles -----

  /** A leaf call under `n` doubles. */
  datatype Leaf = Leaf(doublePath: string, path: string, payload: Value)

  function TargetAt(leaf: Leaf, n: nat): string {
    if n == 0 then leaf.path else leaf.doublePath
  }

  function Nested(leaf: Leaf, n: nat): Value {
    if n == 0 then leaf.payload
    else Object(map["path" := Str(TargetAt(leaf, n - 1)), "payload" := Nested(leaf, n - 1)])
  }

  ghost predicate LeafOf(h: Host, leaf: Leaf) {
    && leaf.doublePath in h.tools && h.tools[leaf.doublePath].1 == Double
    && leaf.path in h.tools && h.tools[leaf.path].1 != Double
  }

  /** The parameters every frame below a frame with this root and these capabilities gets. */
  function Inherited(root: Path, caps: Capabilities): InvocationParams {
    InvocationParams(Names(root), Some(caps))
  }

  function Pow2(n: nat): (p: nat)
    ensures p >= 1
  {
    if n == 0 then 1 else 2 * Pow2(n - 1)
  }

  function Bump(id: nat, times: nat): nat
    decreases times
  {
    if times == 0 then id else Bump(NextId(id), times - 1)
  }

  lemma {:induction false} BumpSum(id: nat, a: nat, b: nat)
    ensures Bump(id, a + b) == Bump(Bump(id, a), b)
    decreases a
  {
    if a > 0 {
      BumpSum(NextId(id), a - 1, b);
    }
  }

  /** How often `x` occurs. */
  function Count<T(==)>(xs: seq<T>, x: T): nat {
    if xs == [] then 0 else Count(xs[..|xs| - 1], x) + if xs[|xs| - 1] == x then 1 else 0
  }

  lemma CountSnoc<T>(xs: seq<T>, last: T, x: T)
    ensures Count(xs + [last], x) == Count(xs, x) + if last == x then 1 else 0
  {
    assert (xs + [last])[..|xs|] == xs;
  }

  /** `runs` successful leaf runs among `calls` invocations: two allow records each, and nothing else but the tree. */
  ghost predicate Ran(leaf: Leaf, before: HostState, after: HostState, tree: Tree, runs: nat, calls: nat) {
    && after.world.tree == tree
    && after.world.sessions == before.world.sessions
    && |after.world.grants| == |before.world.grants| + 2 * runs
    && after.world.nextGrant == Bump(before.world.nextGrant, 2 * runs)
    && Count(after.invoked, leaf.path) == Count(before.invoked, leaf.path) + runs
    && |after.invoked| == |before.invoked| + calls
  }

  lemma RanTwice(
      leaf: Leaf, before: HostState, entered: HostState, mid: HostState, after: HostState,
      tree: Tree, runs: nat, calls: nat)
    requires entered == before.(invoked := before.invoked + [leaf.doublePath]) && leaf.doublePath != leaf.path
    requires Ran(leaf, entered, mid, tree, runs, calls) && Ran(leaf, mid, after, tree, runs, calls)
    ensures Ran(leaf, before, after, tree, 2 * runs, 2 * calls + 1)
  {
    CountSnoc(before.invoked, leaf.doublePath, leaf.path);
    BumpSum(before.world.nextGrant, 2 * runs, 2 * runs);
  }

  ghost predicate RunsTo(
    h: Host, leaf: Leaf, params: InvocationParams, n: nat, s: HostState, tree: Tree, outcome: ToolOutcome)
  {
    var (after, r) := Invoke(h, s, TargetAt(leaf, n), params, Nested(leaf, n));
    r == Ok(outcome) && Ran(leaf, s, after, tree, Pow2(n), 2 * Pow2(n) - 1)
  }

  /** From either tree the leaf under `n` doubles succeeds with the same outcome and leaves the second tree. */
  ghost predicate SteadyAt(
    h: Host, leaf: Leaf, params: InvocationParams, n: nat, before: Tree, after: Tree, outcome: ToolOutcome)
  {
    forall s: HostState {:trigger RunsTo(h, leaf, params, n, s, after, outcome)} ::
      s.world.tree == before || s.world.tree == after ==> RunsTo(h, leaf, params, n, s, after, outcome)
  }

  lemma DoubleUnfolds(h: Host, leaf: Leaf, root: Path, caps: Capabilities, n: nat, s: HostState)
    requires LeafOf(h, leaf) && n > 0 && WellFormed(s.world.tree) && Canonical(s.world.tree, root)
    ensures
      var params, inner := Inherited(root, caps), Nested(leaf, n - 1);
      var s1 := s.(invoked := s.invoked + [leaf.doublePath]);
      var (s2, first) := Invoke(h, s1, TargetAt(leaf, n - 1), params, inner);
      Invoke(h, s, leaf.doublePath, params, Nested(leaf, n)) ==
      if first.Err? then (s2, first) else Invoke(h, s2, TargetAt(leaf, n - 1), params, inner)
  {
    CanonicalResolvesToItself(s.world.tree, root);
    var payload := Nested(leaf, n);
    assert ParseDouble(payload) == Ok((TargetAt(leaf, n - 1), Nested(leaf, n - 1)));
  }

  lemma OneMoreDouble(
      h: Host, leaf: Leaf, root: Path, caps: Capabilities, before: Tree, after: Tree, outcome: ToolOutcome,
      n: nat, s: HostState)
    requires LeafOf(h, leaf) && n > 0 && SteadyAt(h, leaf, Inherited(root, caps), n - 1, before, after, outcome)
    requires WellFormed(s.world.tree) && Canonical(s.world.tree, root)
    requires s.world.tree == before || s.world.tree == after
    ensures RunsTo(h, leaf, Inherited(root, caps), n, s, after, outcome)
  {
    var params, inner, target := Inherited(root, caps), Nested(leaf, n - 1), TargetAt(leaf, n - 1);
    var s1 := s.(invoked := s.invoked + [leaf.doublePath]);
    assert RunsTo(h, leaf, params, n - 1, s1, after, outcome);
    var s2 := Invoke(h, s1, target, params, inner).0;
    assert RunsTo(h, leaf, params, n - 1, s2, after, outcome);
    var s3 := Invoke(h, s2, target, params, inner).0;
    DoubleUnfolds(h, leaf, root, caps, n, s);
    RanTwice(leaf, s, s1, s2, s3, after, Pow2(n - 1), 2 * Pow2(n - 1) - 1);
  }

  /**
   * `n` doubles around a steady leaf run it 2^n times in 2^(n+1) - 1 invocations, all but the outermost nested,
   * and leave the files and outcome of a single run.
   */
  lemma {:induction false} NestedDoubles(
      h: Host, leaf: Leaf, root: Path, caps: Capabilities, before: Tree, after: Tree, outcome: ToolOutcome, n: nat)
    requires LeafOf(h, leaf) && SteadyAt(h, leaf, Inherited(root, caps), 0, before, after, outcome)
    requires WellFormed(before) && WellFormed(after) && Canonical(before, root) && Canonical(after, root)
    ensures SteadyAt(h, leaf, Inherited(root, caps), n, before, after, outcome)
  {
    if n > 0 {
      NestedDoubles(h, leaf, root, caps, before, after, outcome, n - 1);
      forall s: HostState | s.world.tree == before || s.world.tree == after
        ensures RunsTo(h, leaf, Inherited(root, caps), n, s, after, outcome)
      {
        OneMoreDouble(h, leaf, root, caps, before, after, outcome, n, s);
      }
    }
  }

  lemma LeafIgnoresTrace(h: Host, leaf: Leaf, params: InvocationParams, s: HostState, trace: seq<string>, root: Path)
    requires LeafOf(h, leaf) && params.workspaceRoot == Names(root)
    requires WellFormed(s.world.tree) && Canonical(s.world.tree, root)
    ensures
      var (after, r) := Invoke(h, s, leaf.path, params, leaf.payload);
      Invoke(h, s.(invoked := trace), leaf.path, params, leaf.payload) == (after.(invoked := trace + [leaf.path]), r)
  {
    CanonicalResolvesToItself(s.world.tree, root);
  }

  lemma ReadingKeepsTree(v: View, w: World, ctx: PolicyContext, path: RawPath)
    ensures Reading(v, w, ctx, path).0.tree == w.tree
  {
  }

  lemma WritingKeepsRoot(v: View, w: World, ctx: PolicyContext, path: RawPath, content: string)
    requires WellFormed(w.tree) && Canonical(w.tree, ctx.workspaceRoot)
    ensures
      var after := Writing(v, w, ctx, path, content).0.tree;
      WellFormed(after) && Canonical(after, ctx.workspaceRoot)
  {
    CanonicalResolvesToItself(w.tree, ctx.workspaceRoot);
    var target := ResolveWrite(w.tree, ctx.workspaceRoot, path);
    if target.Ok? && WriteFile(w.tree, target.value, content).Some? {
      WriteGrows(w.tree, target.value, content);
    }
  }

  /** No leaf run disturbs the tree's shape or the workspace root. */
  lemma LeafKeepsRoot(h: Host, leaf: Leaf, root: Path, caps: Capabilities, s: HostState)
    requires LeafOf(h, leaf) && WellFormed(s.world.tree) && Canonical(s.world.tree, root)
    ensures
      var after := Invoke(h, s, leaf.path, Inherited(root, caps), leaf.payload).0;
      WellFormed(after.world.tree) && Canonical(after.world.tree, root)
  {
    CanonicalResolvesToItself(s.world.tree, root);
    var path, content := GetStr(leaf.payload, "path"), GetStr(leaf.payload, "content");
    if path.Some? {
      ReadingKeepsTree(h.policies, s.world, PolicyContext(caps, root), ParsePath(path.value));
      if content.Some? {
        WritingKeepsRoot(h.policies, s.world, PolicyContext(caps, root), ParsePath(path.value), content.value);
      }
    }
  }

  // ----- Invocations refused before any call -----

  /** An unknown tool or an unresolved workspace ends an invocation before the tool is entered. */
  lemma NotEntered(h: Host, s: HostState, path: string, params: InvocationParams, payload: Value)
    ensures path !in h.tools ==> Invoke(h, s, path, params, payload) == (s, Err(UnknownTool(path)))
    ensures path in h.tools && Canonicalize(s.world.tree, params.workspaceRoot) == None ==>
      Invoke(h, s, path, params, payload) == (s, Err(NotAuthorized(Io)))
  {
  }

  /** The payload is an object that holds this text under this field. */
  ghost predicate HasText(payload: Value, field: string, text: string) {
    payload.Object? && field in payload.fields && payload.fields[field] == Str(text)
  }

  lemma TextIsRead(payload: Value, field: string)
    ensures GetStr(payload, field).Some? <==> exists text :: HasText(payload, field, text)
    ensures GetStr(payload, field).Some? ==> HasText(payload, field, GetStr(payload, field).value)
  {
    forall text | HasText(payload, field, text)
      ensures GetStr(payload, field) == Some(text)
    {
    }
    if GetStr(payload, field).Some? { assert HasText(payload, field, GetStr(payload, field).value); }
  }

  /** A payload without its fields ends it once entered: nothing changes, and the first missing field is the error. */
  lemma MissingFields(h: Host, s: HostState, path: string, params: InvocationParams, payload: Value)
    requires path in h.tools && Canonicalize(s.world.tree, params.workspaceRoot).Some?
    ensures
      var entered, (after, r) := s.(invoked := s.invoked + [path]), Invoke(h, s, path, params, payload);
      match h.tools[path].1
      case ReadFileTool =>
        GetStr(payload, "path") == None ==> after == entered && r == Err(InvalidInput(MissingField("path")))
      case WriteFileTool =>
        && (GetStr(payload, "path") == None ==> after == entered && r == Err(InvalidInput(MissingField("path"))))
        && (GetStr(payload, "path").Some? && GetStr(payload, "content") == None ==>
              after == entered && r == Err(InvalidInput(MissingField("content"))))
      case Double =>
        ParseDouble(payload).Err? ==> after == entered && r == Err(InvalidInput(ParseDouble(payload).error))
  {
  }

  /** What a facade refuses or fails with is what the tool reports, in a world that is the facade's. */
  lemma FailuresAreReported(h: Host, s: HostState, path: string, params: InvocationParams, payload: Value, root: Path)
    requires path in h.tools && Canonicalize(s.world.tree, params.workspaceRoot) == Some(root)
    requires GetStr(payload, "path").Some?
    ensures
      var caps := if params.capabilitiesOverride.Some? then params.capabilitiesOverride.value else h.tools[path].0;
      var ctx, raw := PolicyContext(caps, root), ParsePath(GetStr(payload, "path").value);
      var (after, r) := Invoke(h, s, path, params, payload);
      match h.tools[path].1
      case ReadFileTool =>
        var (w, read) := Reading(h.policies, s.world, ctx, raw);
        after == HostState(w, s.invoked + [path]) && (read.Err? ==> r == Err(ExecutionFailed(read.error)))
      case WriteFileTool =>
        GetStr(payload, "content").Some? ==>
          var (w, written) := Writing(h.policies, s.world, ctx, raw, GetStr(payload, "content").value);
          after == HostState(w, s.invoked + [path]) && (written.Err? ==> r == Err(ExecutionFailed(written.error)))
      case Double => true
  {
  }

  // ----- Steady leaves -----

  lemma GrantingBothIff(v: View, w: World, ctx: PolicyContext, parent: Action, a: Action)
    ensures GrantingBoth(v, w, ctx, parent, a).1.Ok? <==> Allowed(v, ctx, parent) && Allowed(v, ctx, a)
    ensures GrantingBoth(v, w, ctx, parent, a).0.tree == w.tree
    ensures GrantingBoth(v, w, ctx, parent, a).0.sessions == w.sessions
  {
  }

  /** Both requests allowed: two allow records and two ids. */
  lemma GrantsOfBoth(v: View, w: World, ctx: PolicyContext, parent: Action, a: Action)
    requires Allowed(v, ctx, parent) && Allowed(v, ctx, a)
    ensures
      var after := GrantingBoth(v, w, ctx, parent, a).0;
      |after.grants| == |w.grants| + 2 && after.nextGrant == Bump(w.nextGrant, 2)
  {
    assert Bump(w.nextGrant, 2) == NextId(NextId(w.nextGrant));
  }

  /** The parent action is denied, or it is allowed and the action itself is denied; either leaves its own denial record. */
  ghost predicate Refused(v: View, w: World, ctx: PolicyContext, parent: Action, a: Action, after: World, e: AuthorizationError) {
    var denied := if Allowed(v, ctx, parent) then a else parent;
    && |after.grants| == |w.grants| + (if denied == a then 2 else 1) && w.grants <= after.grants
    && after == w.(nextGrant := if denied == a then NextId(w.nextGrant) else w.nextGrant, grants := after.grants)
    && e.Denied? && e.record == Some(after.grants[|after.grants| - 1])
    && e.record.value.decision == DenyGrant && e.record.value.reason == Some(e.reason)
    && e.record.value.actionKind == AuditKind(denied) && e.record.value.resource == Resource(denied)
  }

  lemma BothRefused(v: View, w: World, ctx: PolicyContext, parent: Action, a: Action)
    requires parent != a && !(Allowed(v, ctx, parent) && Allowed(v, ctx, a))
    ensures GrantingBoth(v, w, ctx, parent, a).1.Err?
    ensures
      Refused(v, w, ctx, parent, a, GrantingBoth(v, w, ctx, parent, a).0, GrantingBoth(v, w, ctx, parent, a).1.error)
  {
  }

  /** Why a read fails, and what is recorded by then: nothing for a path that does not resolve under the root. */
  lemma ReadingFails(v: View, w: World, ctx: PolicyContext, path: RawPath)
    requires WellFormed(w.tree) && Canonical(w.tree, ctx.workspaceRoot)
    ensures
      var (after, r) := Reading(v, w, ctx, path);
      match ResolveRead(w.tree, ctx.workspaceRoot, path)
      case Err(e) => after == w && r == Err(AuthorizationFailed(e))
      case Ok(p) =>
        if Allowed(v, ctx, FsAction(p)) && Allowed(v, ctx, FsReadAction(p)) then
          ReadFile(w.tree, p) == None ==> r == Err(CapabilityIo)
        else
          && r.Err? && r.error.AuthorizationFailed?
          && Refused(v, w, ctx, FsAction(p), FsReadAction(p), after, r.error.error)
  {
    CanonicalResolvesToItself(w.tree, ctx.workspaceRoot);
    var target := ResolveRead(w.tree, ctx.workspaceRoot, path);
    if target.Ok? {
      var parent, a := FsAction(target.value), FsReadAction(target.value);
      GrantingBothIff(v, w, ctx, parent, a);
      if !(Allowed(v, ctx, parent) && Allowed(v, ctx, a)) { BothRefused(v, w, ctx, parent, a); }
    }
  }

  /** Why a write fails; what is written is then not a part of the world. */
  lemma WritingFails(v: View, w: World, ctx: PolicyContext, path: RawPath, content: string)
    requires WellFormed(w.tree) && Canonical(w.tree, ctx.workspaceRoot)
    ensures
      var (after, r) := Writing(v, w, ctx, path, content);
      match ResolveWrite(w.tree, ctx.workspaceRoot, path)
      case Err(e) => after == w && r == Err(AuthorizationFailed(e))
      case Ok(p) =>
        if Allowed(v, ctx, FsAction(p)) && Allowed(v, ctx, FsWriteAction(p, content)) then
          WriteFile(w.tree, p, content) == None ==> r == Err(CapabilityIo) && after.tree == w.tree
        else
          && r.Err? && r.error.AuthorizationFailed?
          && Refused(v, w, ctx, FsAction(p), FsWriteAction(p, content), after, r.error.error)
  {
    CanonicalResolvesToItself(w.tree, ctx.workspaceRoot);
    var target := ResolveWrite(w.tree, ctx.workspaceRoot, path);
    if target.Ok? {
      var parent, a := FsAction(target.value), FsWriteAction(target.value, content);
      GrantingBothIff(v, w, ctx, parent, a);
      if !(Allowed(v, ctx, parent) && Allowed(v, ctx, a)) { BothRefused(v, w, ctx, parent, a); }
    }
  }

  /** The policies let `p` be read. */
  predicate MayRead(h: Host, root: Path, caps: Capabilities, p: Path) {
    var ctx := PolicyContext(caps, root);
    Allowed(h.policies, ctx, FsAction(p)) && Allowed(h.policies, ctx, FsReadAction(p))
  }

  /** What the read facade does in a workspace that is in place. */
  lemma ReadingDoes(v: View, w: World, ctx: PolicyContext, path: RawPath)
    requires WellFormed(w.tree) && Canonical(w.tree, ctx.workspaceRoot)
    ensures
      var target, (after, r) := ResolveRead(w.tree, ctx.workspaceRoot, path), Reading(v, w, ctx, path);
      && after.tree == w.tree && after.sessions == w.sessions
      && if && target.Ok? && ReadFile(w.tree, target.value).Some?
            && Allowed(v, ctx, FsAction(target.value)) && Allowed(v, ctx, FsReadAction(target.value)) then
           && r == Ok(ReadFile(w.tree, target.value).value)
           && |after.grants| == |w.grants| + 2 && after.nextGrant == Bump(w.nextGrant, 2)
         else r.Err?
  {
    CanonicalResolvesToItself(w.tree, ctx.workspaceRoot);
    var target := ResolveRead(w.tree, ctx.workspaceRoot, path);
    if target.Ok? {
      var p := target.value;
      GrantingBothIff(v, w, ctx, FsAction(p), FsReadAction(p));
      if Allowed(v, ctx, FsAction(p)) && Allowed(v, ctx, FsReadAction(p)) {
        GrantsOfBoth(v, w, ctx, FsAction(p), FsReadAction(p));
      }
    }
  }

  /** What one read request does: the file's content, local to the workspace, or an error; no file changes. */
  lemma ReadRun(h: Host, leaf: Leaf, root: Path, caps: Capabilities, s: HostState, path: RawPath)
    requires LeafOf(h, leaf) && h.tools[leaf.path].1 == ReadFileTool
    requires WellFormed(s.world.tree) && Canonical(s.world.tree, root)
    requires GetStr(leaf.payload, "path").Some? && path == ParsePath(GetStr(leaf.payload, "path").value)
    ensures
      var tree, target := s.world.tree, ResolveRead(s.world.tree, root, path);
      var (after, r) := Invoke(h, s, leaf.path, Inherited(root, caps), leaf.payload);
      && after.world.tree == tree
      && if target.Ok? && MayRead(h, root, caps, target.value) && ReadFile(tree, target.value).Some? then
           && r == Ok(ToolOutcome(Object(map["content" := Str(ReadFile(tree, target.value).value)]), WorkspaceLocal))
           && Ran(leaf, s, after, tree, 1, 1)
         else r.Err?
  {
    CanonicalResolvesToItself(s.world.tree, root);
    CountSnoc(s.invoked, leaf.path, leaf.path);
    ReadingDoes(h.policies, s.world, PolicyContext(caps, root), path);
  }

  /** A successful read: reading again from any world with the same files gives the same content. */
  lemma ReadIsSteady(h: Host, leaf: Leaf, root: Path, caps: Capabilities, s: HostState)
    requires LeafOf(h, leaf) && h.tools[leaf.path].1 == ReadFileTool
    requires WellFormed(s.world.tree) && Canonical(s.world.tree, root)
    requires Invoke(h, s, leaf.path, Inherited(root, caps), leaf.payload).1.Ok?
    ensures
      SteadyAt(h, leaf, Inherited(root, caps), 0, s.world.tree, s.world.tree,
             Invoke(h, s, leaf.path, Inherited(root, caps), leaf.payload).1.value)
  {
    var params, tree := Inherited(root, caps), s.world.tree;
    var outcome := Invoke(h, s, leaf.path, params, leaf.payload).1.value;
    CanonicalResolvesToItself(tree, root);
    var path := ParsePath(GetStr(leaf.payload, "path").value);
    ReadRun(h, leaf, root, caps, s, path);
    forall v: HostState | v.world.tree == tree
      ensures RunsTo(h, leaf, params, 0, v, tree, outcome)
    {
      ReadRun(h, leaf, root, caps, v, path);
    }
  }

  /** The policies let `content` be written at `p`. */
  predicate MayWrite(h: Host, root: Path, caps: Capabilities, p: Path, content: string) {
    var ctx := PolicyContext(caps, root);
    Allowed(h.policies, ctx, FsAction(p)) && Allowed(h.policies, ctx, FsWriteAction(p, content))
  }

  /** What one write request does, given where it resolves. */
  lemma WriteRun(h: Host, leaf: Leaf, root: Path, caps: Capabilities, s: HostState, path: RawPath, content: string)
    requires LeafOf(h, leaf) && h.tools[leaf.path].1 == WriteFileTool
    requires WellFormed(s.world.tree) && Canonical(s.world.tree, root)
    requires GetStr(leaf.payload, "path").Some? && path == ParsePath(GetStr(leaf.payload, "path").value)
    requires GetStr(leaf.payload, "content") == Some(content)
    ensures
      var tree, target := s.world.tree, ResolveWrite(s.world.tree, root, path);
      var (after, r) := Invoke(h, s, leaf.path, Inherited(root, caps), leaf.payload);
      if target.Ok? && MayWrite(h, root, caps, target.value, content) && WriteFile(tree, target.value, content).Some? then
        && r == Ok(ToolOutcome(Object(map["ok" := Bool(true)]), Public))
        && Ran(leaf, s, after, WriteFile(tree, target.value, content).value, 1, 1)
      else r.Err? && after.world.tree == tree
  {
    CanonicalResolvesToItself(s.world.tree, root);
    CountSnoc(s.invoked, leaf.path, leaf.path);
    var target := ResolveWrite(s.world.tree, root, path);
    if target.Ok? {
      var ctx, p := PolicyContext(caps, root), target.value;
      GrantingBothIff(h.policies, s.world, ctx, FsAction(p), FsWriteAction(p, content));
      if MayWrite(h, root, caps, p, content) {
        GrantsOfBoth(h.policies, s.world, ctx, FsAction(p), FsWriteAction(p, content));
      }
    }
  }

  /** Carried out once, the request resolves under the root again, to a path the policies let it write. */
  ghost predicate MayWriteAgain(h: Host, tree: Tree, root: Path, caps: Capabilities, payload: Value) {
    var path, content := GetStr(payload, "path"), GetStr(payload, "content");
    && path.Some? && content.Some?
    && ResolveWrite(tree, root, ParsePath(path.value)).Ok?
    && var again := SecondTarget(tree, root, ParsePath(path.value));
       again.Ok? && MayWrite(h, root, caps, again.value, content.value)
  }

  /** A first write succeeded in `s`. */
  ghost predicate Wrote(h: Host, leaf: Leaf, root: Path, caps: Capabilities, s: HostState) {
    && LeafOf(h, leaf) && h.tools[leaf.path].1 == WriteFileTool
    && WellFormed(s.world.tree) && Canonical(s.world.tree, root)
    && Invoke(h, s, leaf.path, Inherited(root, caps), leaf.payload).1.Ok?
  }

  /** A second run of the same write succeeds if and only if the request may be written again; it changes no file. */
  lemma SecondWrite(h: Host, leaf: Leaf, root: Path, caps: Capabilities, s: HostState, v: HostState)
    requires Wrote(h, leaf, root, caps, s)
    requires v.world.tree == Invoke(h, s, leaf.path, Inherited(root, caps), leaf.payload).0.world.tree
    ensures
      var (once, r) := Invoke(h, s, leaf.path, Inherited(root, caps), leaf.payload);
      var (again, r') := Invoke(h, v, leaf.path, Inherited(root, caps), leaf.payload);
      && WellFormed(once.world.tree) && Canonical(once.world.tree, root)
      && again.world.tree == once.world.tree
      && (r'.Ok? <==> MayWriteAgain(h, s.world.tree, root, caps, leaf.payload))
      && (r'.Ok? ==> r' == r && Ran(leaf, v, again, once.world.tree, 1, 1))
  {
    var tree := s.world.tree;
    CanonicalResolvesToItself(tree, root);
    var path, content := ParsePath(GetStr(leaf.payload, "path").value), GetStr(leaf.payload, "content").value;
    WriteRun(h, leaf, root, caps, s, path, content);
    WriteGrows(tree, ResolveWrite(tree, root, path).value, content);
    WriteAgain(tree, root, path, content);
    WriteRun(h, leaf, root, caps, v, path, content);
  }

  lemma SameFilesSameWrite(h: Host, leaf: Leaf, root: Path, caps: Capabilities, s: HostState, v: HostState)
    requires Wrote(h, leaf, root, caps, s) && v.world.tree == s.world.tree
    ensures
      var (once, r) := Invoke(h, s, leaf.path, Inherited(root, caps), leaf.payload);
      RunsTo(h, leaf, Inherited(root, caps), 0, v, once.world.tree, r.value)
  {
    CanonicalResolvesToItself(s.world.tree, root);
    var path, content := ParsePath(GetStr(leaf.payload, "path").value), GetStr(leaf.payload, "content").value;
    WriteRun(h, leaf, root, caps, s, path, content);
    WriteRun(h, leaf, root, caps, v, path, content);
  }

  lemma WriteIsSteady(h: Host, leaf: Leaf, root: Path, caps: Capabilities, s: HostState)
    requires Wrote(h, leaf, root, caps, s) && MayWriteAgain(h, s.world.tree, root, caps, leaf.payload)
    ensures
      var (once, r) := Invoke(h, s, leaf.path, Inherited(root, caps), leaf.payload);
      SteadyAt(h, leaf, Inherited(root, caps), 0, s.world.tree, once.world.tree, r.value)
  {
    var (once, r) := Invoke(h, s, leaf.path, Inherited(root, caps), leaf.payload);
    forall v: HostState | v.world.tree == s.world.tree || v.world.tree == once.world.tree
      ensures RunsTo(h, leaf, Inherited(root, caps), 0, v, once.world.tree, r.value)
    {
      if v.world.tree == s.world.tree {
        SameFilesSameWrite(h, leaf, root, caps, s, v);
      } else {
        SecondWrite(h, leaf, root, caps, s, v);
      }
    }
  }

  /** Reading under any number of doubles: the same content, 2^n reads, exactly 2^(n+1) grant ids, no file changed. */
  lemma DoubledReadIsTransparent(h: Host, leaf: Leaf, root: Path, caps: Capabilities, n: nat, s: HostState)
    requires LeafOf(h, leaf) && h.tools[leaf.path].1 == ReadFileTool
    requires WellFormed(s.world.tree) && Canonical(s.world.tree, root)
    requires Invoke(h, s, leaf.path, Inherited(root, caps), leaf.payload).1.Ok?
    ensures
      RunsTo(h, leaf, Inherited(root, caps), n, s, s.world.tree,
             Invoke(h, s, leaf.path, Inherited(root, caps), leaf.payload).1.value)
  {
    ReadIsSteady(h, leaf, root, caps, s);
    NestedDoubles(h, leaf, root, caps, s.world.tree, s.world.tree,
                  Invoke(h, s, leaf.path, Inherited(root, caps), leaf.payload).1.value, n);
  }

  /** A write whose authorized path is not a link may always be repeated. */
  lemma LinkFreeWritesRepeat(h: Host, leaf: Leaf, root: Path, caps: Capabilities, s: HostState)
    requires Wrote(h, leaf, root, caps, s)
    requires
      var path := GetStr(leaf.payload, "path");
      path.Some? ==>
        var target := ResolveWrite(s.world.tree, root, ParsePath(path.value));
        target.Ok? ==> !IsLink(s.world.tree, target.value)
    ensures MayWriteAgain(h, s.world.tree, root, caps, leaf.payload)
  {
    CanonicalResolvesToItself(s.world.tree, root);
    var path, content := ParsePath(GetStr(leaf.payload, "path").value), GetStr(leaf.payload, "content").value;
    WriteRun(h, leaf, root, caps, s, path, content);
    LinkFreeSecondTarget(s.world.tree, root, path);
  }

  // ----- Wider capabilities -----

  ghost predicate WidensParams(params: InvocationParams, params': InvocationParams) {
    && params.workspaceRoot == params'.workspaceRoot
    && params.capabilitiesOverride.Some? && params'.capabilitiesOverride.Some?
    && Contains(params'.capabilitiesOverride.value, params.capabilitiesOverride.value)
  }

  lemma WiderGranting(v: View, w: World, ctx: PolicyContext, ctx': PolicyContext, a: Action)
    requires OnlyEnvelopeReadsCapabilities(v) && Widens(ctx, ctx')
    requires Granting(v, w, ctx, a).1.Ok?
    ensures Granting(v, w, ctx', a) == Granting(v, w, ctx, a)
  {
    WiderCapabilitiesKeepAllows(v, ctx, ctx', a);
  }

  lemma WiderGrantingBoth(v: View, w: World, ctx: PolicyContext, ctx': PolicyContext, parent: Action, a: Action)
    requires OnlyEnvelopeReadsCapabilities(v) && Widens(ctx, ctx')
    requires GrantingBoth(v, w, ctx, parent, a).1.Ok?
    ensures GrantingBoth(v, w, ctx', parent, a) == GrantingBoth(v, w, ctx, parent, a)
  {
    WiderGranting(v, w, ctx, ctx', parent);
    WiderGranting(v, Granting(v, w, ctx, parent).0, ctx, ctx', a);
  }

  lemma WiderReading(v: View, w: World, ctx: PolicyContext, ctx': PolicyContext, path: RawPath)
    requires OnlyEnvelopeReadsCapabilities(v) && Widens(ctx, ctx') && Reading(v, w, ctx, path).1.Ok?
    ensures Reading(v, w, ctx', path) == Reading(v, w, ctx, path)
  {
    var root := Existing(w.tree, Names(ctx.workspaceRoot)).value;
    var p := ResolveRead(w.tree, root, path).value;
    WiderGrantingBoth(v, w, ctx, ctx', FsAction(p), FsReadAction(p));
  }

  lemma WiderWriting(v: View, w: World, ctx: PolicyContext, ctx': PolicyContext, path: RawPath, content: string)
    requires OnlyEnvelopeReadsCapabilities(v) && Widens(ctx, ctx') && Writing(v, w, ctx, path, content).1.Ok?
    ensures Writing(v, w, ctx', path, content) == Writing(v, w, ctx, path, content)
  {
    var root := Existing(w.tree, Names(ctx.workspaceRoot)).value;
    var p := ResolveWrite(w.tree, root, path).value;
    WiderGrantingBoth(v, w, ctx, ctx', FsAction(p), FsWriteAction(p, content));
  }

  /** A builtin-tool run that succeeds under some capabilities does exactly the same under more. */
  lemma {:induction false} WiderCapabilitiesKeepRuns(
      h: Host, s: HostState, path: string, params: InvocationParams, params': InvocationParams, payload: Value)
    requires OnlyEnvelopeReadsCapabilities(h.policies) && WidensParams(params, params')
    requires Invoke(h, s, path, params, payload).1.Ok?
    ensures Invoke(h, s, path, params', payload) == Invoke(h, s, path, params, payload)
    decreases payload
  {
    var cx := NewContext(s.world.tree, path, h.tools[path].0, params).value;
    var cx' := NewContext(s.world.tree, path, h.tools[path].0, params').value;
    var s1 := s.(invoked := s.invoked + [path]);
    match h.tools[path].1
    case ReadFileTool =>
      WiderReading(h.policies, s1.world, cx.PolicyView(), cx'.PolicyView(), ParsePath(GetStr(payload, "path").value));
    case WriteFileTool =>
      WiderWriting(h.policies, s1.world, cx.PolicyView(), cx'.PolicyView(),
                   ParsePath(GetStr(payload, "path").value), GetStr(payload, "content").value);
    case Double =>
      var (target, inner) := ParseDouble(payload).value;
      var nested, nested' := NestedParams(cx, None).value, NestedParams(cx', None).value;
      WiderCapabilitiesKeepRuns(h, s1, target, nested, nested', inner);
      var s2 := Invoke(h, s1, target, nested, inner).0;
      WiderCapabilitiesKeepRuns(h, s2, target, nested, nested', inner);
  }
}
