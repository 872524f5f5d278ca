/** What every step of the machine keeps: the tree, the frames, the calls, and who passed what to whom. */
module MachineShape {
  import opened Wrappers
  import opened CapabilitySet
  import opened Contract
  import opened Paths
  import opened PathProofs
  import opened Policies
  import opened Pipeline
  import opened Kernel
  import opened Invocation
  import opened Machine

  /** A frame keeps its parent's root and at most its parent's capabilities. */
  ghost predicate FrameOk(tree: Tree, frames: seq<Frame>, i: nat)
    requires i < |frames|
  {
    var frame := frames[i];
    && Canonical(tree, frame.cx.root)
    && (frame.parent.Some? ==>
          && frame.parent.value < i
          && Contains(frames[frame.parent.value].cx.effective, frame.cx.effective)
          && frame.cx.root == frames[frame.parent.value].cx.root)
  }

  ghost predicate FramesOk(tree: Tree, frames: seq<Frame>) {
    forall i :: 0 <= i < |frames| ==> FrameOk(tree, frames, i)
  }

  /** A resource the facade resolved for a frame with this root. */
  ghost predicate ActionOk(tree: Tree, root: Path, a: Action) {
    match a
    case FsReadAction(p) => root <= p && Canonical(tree, p)
    case FsWriteAction(p, _) => root <= p && Anchored(tree, p)
    case NetworkFetchAction(_) => true
    case SessionLoadAction(key) => key.workspaceRoot == root
    case SessionSaveAction(key, _) => key.workspaceRoot == root
    case _ => false
  }

  ghost predicate CallOk(tree: Tree, frames: seq<Frame>, call: Call) {
    call.frame < |frames| && ActionOk(tree, frames[call.frame].cx.root, call.action)
  }

  ghost predicate CallsOk(tree: Tree, frames: seq<Frame>, calls: seq<Call>) {
    forall c :: 0 <= c < |calls| ==> CallOk(tree, frames, calls[c])
  }

  ghost predicate ShapeOk(st: State) {
    WellFormed(st.tree) && FramesOk(st.tree, st.frames) && CallsOk(st.tree, st.frames, st.calls) && !st.panicked
  }

  /** Frames are only added and ended; calls are only added and moved along. */
  ghost predicate Continues(before: State, after: State) {
    && |before.frames| <= |after.frames|
    && (forall i :: 0 <= i < |before.frames| ==>
          after.frames[i].parent == before.frames[i].parent && after.frames[i].cx == before.frames[i].cx)
    && |before.calls| <= |after.calls|
    && (forall c :: 0 <= c < |before.calls| ==>
          after.calls[c].frame == before.calls[c].frame && after.calls[c].action == before.calls[c].action)
  }

  lemma GrownKeepsAction(before: Tree, after: Tree, root: Path, a: Action)
    requires Grown(before, after) && ActionOk(before, root, a)
    ensures ActionOk(after, root, a)
  {
  }

  lemma GrownKeepsFrames(before: Tree, after: Tree, frames: seq<Frame>)
    requires Grown(before, after) && FramesOk(before, frames)
    ensures FramesOk(after, frames)
  {
    forall i | 0 <= i < |frames|
      ensures FrameOk(after, frames, i)
    {
      assert FrameOk(before, frames, i);
    }
  }

  lemma GrownKeepsCalls(before: Tree, after: Tree, frames: seq<Frame>, calls: seq<Call>)
    requires Grown(before, after) && CallsOk(before, frames, calls)
    ensures CallsOk(after, frames, calls)
  {
    forall c | 0 <= c < |calls|
      ensures CallOk(after, frames, calls[c])
    {
      GrownKeepsAction(before, after, frames[calls[c].frame].cx.root, calls[c].action);
    }
  }

  /** Entering a tool adds a well-shaped frame. */
  lemma EnterKeepsShape(cfg: Config, st: State, parent: Option<nat>, tool: string, params: InvocationParams)
    requires ShapeOk(st)
    requires parent.Some? ==>
      && parent.value < |st.frames|
      && params.workspaceRoot == Names(st.frames[parent.value].cx.root)
      && params.capabilitiesOverride.Some?
      && Contains(st.frames[parent.value].cx.effective, params.capabilitiesOverride.value)
    ensures ShapeOk(Enter(cfg, st, parent, tool, params))
  {
    var after := Enter(cfg, st, parent, tool, params);
    if after.frames != st.frames {
      CanonicalizeIdempotent(st.tree, params.workspaceRoot);
      if parent.Some? {
        assert FrameOk(st.tree, st.frames, parent.value);
        CanonicalResolvesToItself(st.tree, st.frames[parent.value].cx.root);
      }
      forall i | 0 <= i < |after.frames|
        ensures FrameOk(after.tree, after.frames, i)
      {
        assert i < |st.frames| ==> FrameOk(st.tree, st.frames, i);
      }
      forall c | 0 <= c < |after.calls|
        ensures CallOk(after.tree, after.frames, after.calls[c])
      {
        assert CallOk(st.tree, st.frames, st.calls[c]);
      }
    }
  }

  /** The facade never panics on its frame's root, and prepares only well-resolved actions. */
  lemma PreparedActionOk(tree: Tree, cx: ToolContext, request: Request)
    requires WellFormed(tree) && Canonical(tree, cx.root)
    ensures Prepare(tree, cx, request).Ok? ==> ActionOk(tree, cx.root, Prepare(tree, cx, request).value)
    ensures Prepare(tree, cx, request).Err? ==> !Prepare(tree, cx, request).error.Panicked?
  {
    CanonicalResolvesToItself(tree, cx.root);
    match request
    case ReadRequest(path) =>
      if ResolveRead(tree, cx.root, path).Ok? { ResolveReadShape(tree, cx.root, path); }
    case WriteRequest(path, _) =>
      if ResolveWrite(tree, cx.root, path).Ok? { ResolveWriteShape(tree, cx.root, path); }
    case _ =>
  }

  lemma PerformGrows(st: State, c: nat)
    requires c < |st.calls| && WellFormed(st.tree)
    ensures WellFormed(StepPerform(st, c).tree) && Grown(st.tree, StepPerform(st, c).tree)
  {
    match st.calls[c].action
    case FsWriteAction(p, content) =>
      if WriteFile(st.tree, p, content).Some? { WriteGrows(st.tree, p, content); }
    case _ =>
  }

  lemma BeginKeepsShape(st: State, f: nat, request: Request)
    requires ShapeOk(st) && LiveFrame(st, f)
    ensures ShapeOk(StepBegin(st, f, request))
  {
    assert FrameOk(st.tree, st.frames, f);
    PreparedActionOk(st.tree, st.frames[f].cx, request);
    var after := StepBegin(st, f, request);
    forall c | 0 <= c < |after.calls|
      ensures CallOk(after.tree, after.frames, after.calls[c])
    {
      assert c < |st.calls| ==> CallOk(st.tree, st.frames, st.calls[c]);
    }
  }

  lemma EndedFrameKeepsFrames(tree: Tree, frames: seq<Frame>, f: nat)
    requires FramesOk(tree, frames) && f < |frames|
    ensures FramesOk(tree, frames[f := frames[f].(live := false)])
  {
    var after := frames[f := frames[f].(live := false)];
    forall i | 0 <= i < |after|
      ensures FrameOk(tree, after, i)
    {
      assert FrameOk(tree, frames, i);
    }
  }

  lemma EndedFrameKeepsCalls(tree: Tree, frames: seq<Frame>, calls: seq<Call>, f: nat)
    requires CallsOk(tree, frames, calls) && f < |frames|
    ensures CallsOk(tree, frames[f := frames[f].(live := false)], calls)
  {
    forall c | 0 <= c < |calls|
      ensures CallOk(tree, frames[f := frames[f].(live := false)], calls[c])
    {
      assert CallOk(tree, frames, calls[c]);
    }
  }

  lemma ReturnKeepsShape(cfg: Config, st: State, f: nat)
    requires ShapeOk(st)
    ensures ShapeOk(Step(cfg, st, Return(f)))
  {
    if LiveFrame(st, f) {
      EndedFrameKeepsFrames(st.tree, st.frames, f);
      EndedFrameKeepsCalls(st.tree, st.frames, st.calls, f);
    }
  }

  /** One call has moved along and one event was logged; the frames are as they were. */
  ghost predicate Moved(st: State, after: State, c: nat, progress: Progress, e: Event)
    requires c < |st.calls|
  {
    && after.frames == st.frames
    && after.calls == st.calls[c := st.calls[c].(progress := progress)]
    && after.log == st.log + [e]
  }

  lemma AuthorizeMoves(cfg: Config, st: State, c: nat)
    requires c < |st.calls| && LiveFrame(st, st.calls[c].frame)
    ensures
      var call := st.calls[c];
      var record := RecordFor(cfg.policies, st.nextGrant, st.frames[call.frame].cx.PolicyView(), Asked(call));
      Moved(st, StepAuthorize(cfg, st, c), c, AfterGrant(call, record), Recorded(c, Asked(call), record))
  {
  }

  lemma PerformMoves(st: State, c: nat)
    requires c < |st.calls|
    ensures Moved(st, StepPerform(st, c), c, Performed, Effect(c, st.calls[c].action))
  {
  }

  lemma MovedCallKeepsShape(tree: Tree, frames: seq<Frame>, calls: seq<Call>, c: nat, progress: Progress)
    requires CallsOk(tree, frames, calls) && c < |calls|
    ensures CallsOk(tree, frames, calls[c := calls[c].(progress := progress)])
  {
    assert CallOk(tree, frames, calls[c]);
  }

  lemma AuthorizeKeepsShape(cfg: Config, st: State, c: nat)
    requires ShapeOk(st) && c < |st.calls| && LiveFrame(st, st.calls[c].frame)
    ensures ShapeOk(StepAuthorize(cfg, st, c))
  {
    AuthorizeMoves(cfg, st, c);
    MovedCallKeepsShape(st.tree, st.frames, st.calls, c, StepAuthorize(cfg, st, c).calls[c].progress);
  }

  lemma PerformKeepsShape(st: State, c: nat)
    requires ShapeOk(st) && c < |st.calls|
    ensures ShapeOk(StepPerform(st, c))
  {
    var tree := StepPerform(st, c).tree;
    PerformMoves(st, c);
    PerformGrows(st, c);
    GrownKeepsFrames(st.tree, tree, st.frames);
    GrownKeepsCalls(st.tree, tree, st.frames, st.calls);
    MovedCallKeepsShape(tree, st.frames, st.calls, c, Performed);
  }

  lemma StepKeepsShape(cfg: Config, st: State, l: Label)
    requires ShapeOk(st)
    ensures ShapeOk(Step(cfg, st, l))
  {
    match l
    case Start(tool, root, caps) => EnterKeepsShape(cfg, st, None, tool, InvocationParams(root, caps));
    case Invoke(f, tool, caps) =>
      if LiveFrame(st, f) && NestedParams(st.frames[f].cx, caps).Ok? {
        ContainsReflexive(st.frames[f].cx.effective);
        EnterKeepsShape(cfg, st, Some(f), tool, NestedParams(st.frames[f].cx, caps).value);
      }
    case Begin(f, request) => if LiveFrame(st, f) { BeginKeepsShape(st, f, request); }
    case Authorize(c) =>
      if Step(cfg, st, l) != st { AuthorizeKeepsShape(cfg, st, c); }
    case Perform(c) =>
      if Step(cfg, st, l) != st { PerformKeepsShape(st, c); }
    case Return(f) => ReturnKeepsShape(cfg, st, f);
  }

  lemma EnterContinues(cfg: Config, st: State, parent: Option<nat>, tool: string, params: InvocationParams)
    ensures Continues(st, Enter(cfg, st, parent, tool, params))
  {
  }

  lemma MovedContinues(st: State, after: State, c: nat, progress: Progress, e: Event)
    requires c < |st.calls| && Moved(st, after, c, progress, e)
    ensures Continues(st, after)
  {
  }

  lemma CallStepContinues(cfg: Config, st: State, l: Label)
    requires l.Authorize? || l.Perform?
    ensures Continues(st, Step(cfg, st, l))
  {
    var after := Step(cfg, st, l);
    if after != st {
      match l
      case Authorize(c) =>
        AuthorizeMoves(cfg, st, c);
        MovedContinues(st, after, c, after.calls[c].progress, after.log[|st.log|]);
      case Perform(c) =>
        PerformMoves(st, c);
        MovedContinues(st, after, c, Performed, after.log[|st.log|]);
    }
  }

  lemma StepContinues(cfg: Config, st: State, l: Label)
    ensures Continues(st, Step(cfg, st, l))
  {
    match l
    case Start(tool, root, caps) => EnterContinues(cfg, st, None, tool, InvocationParams(root, caps));
    case Invoke(f, tool, caps) =>
      if LiveFrame(st, f) && NestedParams(st.frames[f].cx, caps).Ok? {
        EnterContinues(cfg, st, Some(f), tool, NestedParams(st.frames[f].cx, caps).value);
      }
    case Begin(_, _) =>
    case Authorize(_) => CallStepContinues(cfg, st, l);
    case Perform(_) => CallStepContinues(cfg, st, l);
    case Return(_) =>
  }

  lemma OnlyPerformWrites(cfg: Config, st: State, l: Label)
    ensures !l.Perform? ==> Step(cfg, st, l).tree == st.tree && Step(cfg, st, l).sessions == st.sessions
  {
  }

  lemma StepGrows(cfg: Config, st: State, l: Label)
    requires WellFormed(st.tree)
    ensures Grown(st.tree, Step(cfg, st, l).tree)
  {
    OnlyPerformWrites(cfg, st, l);
    if l.Perform? && l.call < |st.calls| {
      PerformGrows(st, l.call);
    }
  }

  /** Every reachable state is well shaped; no run panics, and the tree only gains files. */
  lemma {:induction false} RunKeepsShape(cfg: Config, st: State, labels: seq<Label>)
    requires ShapeOk(st)
    ensures ShapeOk(Run(cfg, st, labels))
    ensures Continues(st, Run(cfg, st, labels)) && Grown(st.tree, Run(cfg, st, labels).tree)
  {
    if labels != [] {
      var before := labels[..|labels| - 1];
      RunKeepsShape(cfg, st, before);
      var mid := Run(cfg, st, before);
      StepKeepsShape(cfg, mid, labels[|labels| - 1]);
      StepContinues(cfg, mid, labels[|labels| - 1]);
      StepGrows(cfg, mid, labels[|labels| - 1]);
      GrownTransitive(st.tree, mid.tree, Run(cfg, st, labels).tree);
    }
  }
}
