/** The builtin evaluator against the machine: each of its invocations is a run, so what holds of runs holds of it. */
module BuiltinRefinement {
  import opened Wrappers
  import opened CapabilitySet
  import opened Contract
  import opened Json
  import opened Paths
  import opened PathProofs
  import opened Policies
  import opened Kernel
  import opened Invocation
  import M = Machine
  import opened MachineShape
  import opened MachineRefinement
  import opened Builtin

  /** The machine's view of a host. */
  function ConfigOf(h: Host): M.Config {
    M.Config(h.policies, map path | path in h.tools :: h.tools[path].0)
  }

  /** `after` goes on from `st` with this world, and every live frame is as it was. */
  ghost predicate Reaches(st: M.State, after: M.State, world: World) {
    && ShapeOk(after) && WorldOf(after) == world
    && forall f: nat :: M.LiveFrame(st, f) ==> M.LiveFrame(after, f) && after.frames[f] == st.frames[f]
  }

  /** An uninterrupted facade call from a live frame. */
  function CallLabels(st: M.State, f: nat, request: M.Request): seq<M.Label> {
    var c := |st.calls|;
    [M.Begin(f, request), M.Authorize(c), M.Authorize(c), M.Perform(c)]
  }

  lemma CallReaches(cfg: M.Config, st: M.State, f: nat, request: M.Request)
    requires ShapeOk(st) && M.LiveFrame(st, f)
    ensures
      Reaches(st, M.Run(cfg, st, CallLabels(st, f, request)),
              Facade(cfg.policies, WorldOf(st), st.frames[f].cx.PolicyView(), request))
  {
    assert FrameOk(st.tree, st.frames, f);
    CanonicalResolvesToItself(st.tree, st.frames[f].cx.root);
    UninterruptedCallIsFacade(cfg, st, f, request);
    CallsKeepFrames(cfg, st, CallLabels(st, f, request));
    RunKeepsShape(cfg, st, CallLabels(st, f, request));
  }

  /** A nested invocation without an override enters a frame like the caller's, for the tool invoked. */
  lemma EntersLikeCaller(cfg: M.Config, st: M.State, f: nat, path: string)
    requires ShapeOk(st) && M.LiveFrame(st, f) && path in cfg.tools
    ensures
      var after, cx := M.Step(cfg, st, M.Invoke(f, path, None)), st.frames[f].cx;
      && Reaches(st, after, WorldOf(st))
      && M.LiveFrame(after, |st.frames|)
      && after.frames[|st.frames|].cx == ToolContext(path, cx.effective, cx.root)
  {
    assert FrameOk(st.tree, st.frames, f);
    CanonicalResolvesToItself(st.tree, st.frames[f].cx.root);
    StepKeepsShape(cfg, st, M.Invoke(f, path, None));
  }

  lemma ReachesTwice(st: M.State, mid: M.State, after: M.State, world: World, world': World)
    requires Reaches(st, mid, world) && Reaches(mid, after, world')
    ensures Reaches(st, after, world')
  {
  }

  /** What a tool of each kind does once its frame is entered, as the evaluator says. */
  function Body(h: Host, s: HostState, cx: ToolContext, payload: Value): HostState
    requires cx.toolPath in h.tools
  {
    match h.tools[cx.toolPath].1
    case ReadFileTool => RunRead(h, s, cx, payload).0
    case WriteFileTool => RunWrite(h, s, cx, payload).0
    case Double =>
      match ParseDouble(payload)
      case Err(_) => s
      case Ok((target, inner)) =>
        var nested := NestedParams(cx, None).value;
        var (mid, first) := Invoke(h, s, target, nested, inner);
        if first.Err? then mid else Invoke(h, mid, target, nested, inner).0
  }

  lemma InvokeIsBody(h: Host, s: HostState, path: string, params: InvocationParams, cx: ToolContext, payload: Value)
    requires path in h.tools && NewContext(s.world.tree, path, h.tools[path].0, params) == Ok(cx)
    ensures Invoke(h, s, path, params, payload).0 == Body(h, s.(invoked := s.invoked + [path]), cx, payload)
  {
  }

  /** A leaf tool makes at most one facade call. */
  lemma LeafBodyIsRun(h: Host, st: M.State, s: HostState, g: nat, payload: Value) returns (labels: seq<M.Label>)
    requires ShapeOk(st) && M.LiveFrame(st, g) && s.world == WorldOf(st)
    requires st.frames[g].cx.toolPath in h.tools && h.tools[st.frames[g].cx.toolPath].1 != Double
    ensures Reaches(st, M.Run(ConfigOf(h), st, labels), Body(h, s, st.frames[g].cx, payload).world)
  {
    var path, content := GetStr(payload, "path"), GetStr(payload, "content");
    var isRead := h.tools[st.frames[g].cx.toolPath].1 == ReadFileTool;
    if path == None || (!isRead && content == None) {
      labels := [];
    } else {
      var request :=
        if isRead then M.ReadRequest(ParsePath(path.value)) else M.WriteRequest(ParsePath(path.value), content.value);
      labels := CallLabels(st, g, request);
      CallReaches(ConfigOf(h), st, g, request);
    }
  }

  /** Every nested invocation the evaluator makes is a run of the machine from the caller's frame. */
  lemma {:induction false} InvocationIsRun(h: Host, st: M.State, s: HostState, f: nat, path: string, payload: Value)
    returns (labels: seq<M.Label>)
    requires ShapeOk(st) && M.LiveFrame(st, f) && s.world == WorldOf(st)
    ensures
      Reaches(st, M.Run(ConfigOf(h), st, labels),
              Invoke(h, s, path, NestedParams(st.frames[f].cx, None).value, payload).0.world)
    decreases payload, 1
  {
    if path !in h.tools {
      labels := [];
    } else {
      var cfg, cx, enter := ConfigOf(h), st.frames[f].cx, M.Invoke(f, path, None);
      var st1, s1 := M.Step(cfg, st, enter), s.(invoked := s.invoked + [path]);
      var cx1 := ToolContext(path, cx.effective, cx.root);
      assert FrameOk(st.tree, st.frames, f);
      CanonicalResolvesToItself(st.tree, cx.root);
      EntersLikeCaller(cfg, st, f, path);
      InvokeIsBody(h, s, path, NestedParams(cx, None).value, cx1, payload);
      var rest := BodyIsRun(h, st1, s1, |st.frames|, payload);
      labels := [enter] + rest;
      RunOfOne(cfg, st, enter);
      RunConcat(cfg, st, [enter], rest);
      ReachesTwice(st, st1, M.Run(cfg, st, labels), WorldOf(st), Body(h, s1, cx1, payload).world);
    }
  }

  /** The same of a tool body in its own frame. */
  lemma {:induction false} BodyIsRun(h: Host, st: M.State, s: HostState, g: nat, payload: Value)
    returns (labels: seq<M.Label>)
    requires ShapeOk(st) && M.LiveFrame(st, g) && s.world == WorldOf(st)
    requires st.frames[g].cx.toolPath in h.tools
    ensures Reaches(st, M.Run(ConfigOf(h), st, labels), Body(h, s, st.frames[g].cx, payload).world)
    decreases payload, 0
  {
    var cfg, cx := ConfigOf(h), st.frames[g].cx;
    if h.tools[cx.toolPath].1 != Double {
      labels := LeafBodyIsRun(h, st, s, g, payload);
    } else if ParseDouble(payload).Err? {
      labels := [];
    } else {
      var (target, inner) := ParseDouble(payload).value;
      var (mid, first) := Invoke(h, s, target, NestedParams(cx, None).value, inner);
      labels := InvocationIsRun(h, st, s, g, target, inner);
      if first.Ok? {
        var st1 := M.Run(cfg, st, labels);
        var again := InvocationIsRun(h, st1, mid, g, target, inner);
        RunConcat(cfg, st, labels, again);
        ReachesTwice(st, st1, M.Run(cfg, st1, again), mid.world,
                     Invoke(h, mid, target, NestedParams(cx, None).value, inner).0.world);
        labels := labels + again;
      }
    }
  }

  lemma StartEnters(cfg: M.Config, st: M.State, path: string, params: InvocationParams, cx: ToolContext)
    requires ShapeOk(st) && path in cfg.tools && NewContext(st.tree, path, cfg.tools[path], params) == Ok(cx)
    ensures
      var after := M.Step(cfg, st, M.Start(path, params.workspaceRoot, params.capabilitiesOverride));
      Reaches(st, after, WorldOf(st)) && M.LiveFrame(after, |st.frames|) && after.frames[|st.frames|].cx == cx
  {
    StepKeepsShape(cfg, st, M.Start(path, params.workspaceRoot, params.capabilitiesOverride));
  }

  /** Every top-level invocation of a builtin tool is a run of the machine. */
  lemma TopLevelInvocationIsRun(
      h: Host, st: M.State, s: HostState, path: string, params: InvocationParams, payload: Value)
    returns (labels: seq<M.Label>)
    requires ShapeOk(st) && s.world == WorldOf(st)
    ensures Reaches(st, M.Run(ConfigOf(h), st, labels), Invoke(h, s, path, params, payload).0.world)
  {
    var cfg := ConfigOf(h);
    if path !in h.tools || NewContext(st.tree, path, h.tools[path].0, params).Err? {
      labels := [];
    } else {
      var cx, s1 := NewContext(st.tree, path, h.tools[path].0, params).value, s.(invoked := s.invoked + [path]);
      var start := M.Start(path, params.workspaceRoot, params.capabilitiesOverride);
      var st1 := M.Step(cfg, st, start);
      StartEnters(cfg, st, path, params, cx);
      InvokeIsBody(h, s, path, params, cx, payload);
      var rest := BodyIsRun(h, st1, s1, |st.frames|, payload);
      labels := [start] + rest;
      RunOfOne(cfg, st, start);
      RunConcat(cfg, st, [start], rest);
      ReachesTwice(st, st1, M.Run(cfg, st, labels), WorldOf(st), Body(h, s1, cx, payload).world);
    }
  }
}
