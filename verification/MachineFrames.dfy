/** What entering and leaving a frame does: whose authority a frame gets, and that an ended frame is done. */
module MachineFrames {
  import opened Wrappers
  import opened CapabilitySet
  import opened Contract
  import opened Paths
  import opened PathProofs
  import opened Invocation
  import opened Machine
  import opened MachineShape
  import opened MachineSafety

  /** One more live frame, and nothing else. */
  function WithFrame(st: State, parent: Option<nat>, tool: string, caps: Capabilities, root: Path): State {
    st.(frames := st.frames + [Frame(parent, ToolContext(tool, caps, root), true)])
  }

  /**
   * A nested invocation with an override enters a frame with exactly the capabilities asked for and the caller's root,
   * if and only if the caller holds them all; otherwise nothing happens.
   */
  lemma InvokeWithOverride(cfg: Config, st: State, f: nat, tool: string, caps: Capabilities)
    requires ShapeOk(st) && LiveFrame(st, f) && tool in cfg.tools
    ensures
      var after, caller := Step(cfg, st, Invoke(f, tool, Some(caps))), st.frames[f].cx;
      if Contains(caller.effective, caps) then after == WithFrame(st, Some(f), tool, caps, caller.root) else after == st
  {
    assert FrameOk(st.tree, st.frames, f);
    CanonicalResolvesToItself(st.tree, st.frames[f].cx.root);
  }

  /** Without an override it gets exactly the caller's capabilities. */
  lemma InvokeWithoutOverride(cfg: Config, st: State, f: nat, tool: string)
    requires ShapeOk(st) && LiveFrame(st, f) && tool in cfg.tools
    ensures
      var caller := st.frames[f].cx;
      Step(cfg, st, Invoke(f, tool, None)) == WithFrame(st, Some(f), tool, caller.effective, caller.root)
  {
    assert FrameOk(st.tree, st.frames, f);
    CanonicalResolvesToItself(st.tree, st.frames[f].cx.root);
  }

  /** A top-level call gets its override, whatever the tool declares, and the declared capabilities without one. */
  lemma StartedWith(cfg: Config, st: State, tool: string, root: seq<Component>, capabilitiesOverride: Option<Capabilities>)
    ensures
      var after := Step(cfg, st, Start(tool, root, capabilitiesOverride));
      match Canonicalize(st.tree, root)
      case Some(p) =>
        if tool !in cfg.tools then after == st
        else if capabilitiesOverride.Some? then after == WithFrame(st, None, tool, capabilitiesOverride.value, p)
        else after == WithFrame(st, None, tool, cfg.tools[tool], p)
      case None => after == st
  {
  }

  /** No frame enters a tool that is not registered, and no ended frame enters any. */
  lemma NothingEntered(cfg: Config, st: State, f: nat, tool: string, capabilitiesOverride: Option<Capabilities>)
    requires tool !in cfg.tools || !LiveFrame(st, f)
    ensures Step(cfg, st, Invoke(f, tool, capabilitiesOverride)) == st
  {
  }

  /** Asking for more than the caller has is refused with one standing reason and no record. */
  lemma ExpansionIsRefused(cx: ToolContext, caps: Capabilities)
    ensures NestedParams(cx, Some(caps)) == Err(Denied("nested invocation attempted to expand capabilities", None)) <==>
            !Contains(cx.effective, caps)
  {
  }

  /** A facade panics exactly when a file is asked for and the frame's root is gone; no other step panics. */
  lemma PanicsIff(cfg: Config, st: State, l: Label)
    ensures
      Step(cfg, st, l).panicked <==>
      || st.panicked
      || (l.Begin? && LiveFrame(st, l.frame) && (l.request.ReadRequest? || l.request.WriteRequest?)
          && Canonicalize(st.tree, Names(st.frames[l.frame].cx.root)) == None)
  {
  }

  // ----- Ended frames -----

  ghost predicate Ended(st: State, f: nat) {
    f < |st.frames| && !st.frames[f].live
  }

  lemma ReturnEnds(cfg: Config, st: State, f: nat)
    requires f < |st.frames|
    ensures Ended(Step(cfg, st, Return(f)), f)
    ensures forall g: nat :: g != f && LiveFrame(st, g) ==> LiveFrame(Step(cfg, st, Return(f)), g)
  {
  }

  /** From `st` to `after` the frame has made no call, no progress and no nested invocation, and logged nothing. */
  ghost predicate Silent(st: State, after: State, f: nat) {
    && Ended(after, f)
    && |st.frames| <= |after.frames| && |st.calls| <= |after.calls|
    && (forall i :: |st.frames| <= i < |after.frames| ==> after.frames[i].parent != Some(f))
    && (forall c :: |st.calls| <= c < |after.calls| ==> after.calls[c].frame != f)
    && (forall c :: 0 <= c < |st.calls| && st.calls[c].frame == f ==>
          after.calls[c] == st.calls[c] && CallLog(after.log, c) == CallLog(st.log, c))
  }

  lemma MovedIsSilent(st: State, after: State, f: nat, c: nat, progress: Progress, e: Event)
    requires c < |st.calls| && Moved(st, after, c, progress, e) && e.call == c
    requires Ended(st, f) && st.calls[c].frame != f
    ensures Silent(st, after, f)
  {
    forall d | 0 <= d < |st.calls| && st.calls[d].frame == f
      ensures after.calls[d] == st.calls[d] && CallLog(after.log, d) == CallLog(st.log, d)
    {
      CallLogSnoc(st.log, e, d);
    }
  }

  lemma EnterIsSilent(cfg: Config, st: State, f: nat, parent: Option<nat>, tool: string, params: InvocationParams)
    requires Ended(st, f) && parent != Some(f)
    ensures Silent(st, Enter(cfg, st, parent, tool, params), f)
  {
  }

  lemma BeginIsSilent(cfg: Config, st: State, f: nat, g: nat, request: Request)
    requires Ended(st, f) && LiveFrame(st, g)
    ensures Silent(st, StepBegin(st, g, request), f)
  {
  }

  lemma StepIsSilent(cfg: Config, st: State, f: nat, l: Label)
    requires Ended(st, f)
    ensures Silent(st, Step(cfg, st, l), f)
  {
    var after := Step(cfg, st, l);
    if after != st {
      match l
      case Start(tool, root, caps) => EnterIsSilent(cfg, st, f, None, tool, InvocationParams(root, caps));
      case Invoke(g, tool, caps) =>
        EnterIsSilent(cfg, st, f, Some(g), tool, NestedParams(st.frames[g].cx, caps).value);
      case Begin(g, request) => BeginIsSilent(cfg, st, f, g, request);
      case Authorize(c) =>
        AuthorizeMoves(cfg, st, c);
        MovedIsSilent(st, after, f, c, after.calls[c].progress, after.log[|st.log|]);
      case Perform(c) =>
        PerformMoves(st, c);
        MovedIsSilent(st, after, f, c, Performed, after.log[|st.log|]);
      case Return(_) =>
    }
  }

  lemma SilentTwice(st: State, mid: State, after: State, f: nat)
    requires Silent(st, mid, f) && Silent(mid, after, f)
    requires Continues(mid, after)
    ensures Silent(st, after, f)
  {
    forall c | |st.calls| <= c < |after.calls|
      ensures after.calls[c].frame != f
    {
      if c < |mid.calls| { assert after.calls[c].frame == mid.calls[c].frame; }
    }
    forall i | |st.frames| <= i < |after.frames|
      ensures after.frames[i].parent != Some(f)
    {
      if i < |mid.frames| { assert after.frames[i].parent == mid.frames[i].parent; }
    }
  }

  /** Once its tool has returned, a frame never acts again, whatever the run goes on to do. */
  lemma {:induction false} EndedFrameIsDone(cfg: Config, st: State, f: nat, labels: seq<Label>)
    requires Ended(st, f)
    ensures Silent(st, Run(cfg, st, labels), f)
  {
    if labels != [] {
      var init, last := labels[..|labels| - 1], labels[|labels| - 1];
      var mid := Run(cfg, st, init);
      EndedFrameIsDone(cfg, st, f, init);
      StepIsSilent(cfg, mid, f, last);
      StepContinues(cfg, mid, last);
      SilentTwice(st, mid, Run(cfg, st, labels), f);
    }
  }
}
