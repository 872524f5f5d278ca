/** An execution of the Monty tool as a run of the machine, with anything at all happening while its calls are out. */
module MontyRefinement {
  import opened Wrappers
  import opened CapabilitySet
  import opened Contract
  import opened Json
  import opened Paths
  import opened PathProofs
  import opened Pipeline
  import opened Policies
  import opened Kernel
  import opened Invocation
  import opened Bridge
  import opened Monty
  import opened MontyProofs
  import M = Machine
  import opened MachineShape
  import opened MachineRefinement
  import opened BuiltinRefinement

  /** Steps that do not end frame `f`. */
  ghost predicate Spares(f: nat, labels: seq<M.Label>) {
    forall i :: 0 <= i < |labels| ==> labels[i] != M.Return(f)
  }

  lemma StepSparesFrame(cfg: M.Config, st: M.State, f: nat, l: M.Label)
    requires M.LiveFrame(st, f) && l != M.Return(f)
    ensures M.LiveFrame(M.Step(cfg, st, l), f) && M.Step(cfg, st, l).frames[f] == st.frames[f]
  {
  }

  lemma {:induction false} SparedFrameLives(cfg: M.Config, st: M.State, f: nat, labels: seq<M.Label>)
    requires M.LiveFrame(st, f) && Spares(f, labels)
    ensures M.LiveFrame(M.Run(cfg, st, labels), f) && M.Run(cfg, st, labels).frames[f] == st.frames[f]
  {
    if labels != [] {
      var init, last := labels[..|labels| - 1], labels[|labels| - 1];
      SparedFrameLives(cfg, st, f, init);
      StepSparesFrame(cfg, M.Run(cfg, st, init), f, last);
    }
  }

  /** Each nested call of frame `f` in turn, and whatever happens before it answers. */
  function DriveSteps(f: nat, calls: seq<NestedCall>, during: seq<seq<M.Label>>): seq<M.Label>
    requires |during| == |calls|
  {
    if calls == [] then []
    else
      var k := |calls| - 1;
      DriveSteps(f, calls[..k], during[..k]) + [M.Invoke(f, calls[k].path, calls[k].capabilitiesOverride)] + during[k]
  }

  lemma {:induction false} DriveSpares(f: nat, calls: seq<NestedCall>, during: seq<seq<M.Label>>)
    requires |during| == |calls| && forall i :: 0 <= i < |during| ==> Spares(f, during[i])
    ensures Spares(f, DriveSteps(f, calls, during))
  {
    if calls != [] {
      DriveSpares(f, calls[..|calls| - 1], during[..|calls| - 1]);
    }
  }

  /** The nested calls of one execution: none unless its session loaded. */
  function NestedCalls(env: Environment, d: Drive): seq<NestedCall> {
    if LoadsSession(env) then d.calls else []
  }

  /** The session state one execution saves, if any. */
  function SavedBytes(env: Environment, d: Drive): Option<Bytes> {
    if SavesSession(env, d) then Some(env.dump.value) else None
  }

  /** The machine once the session is loaded, and then once the conversation is over. */
  function Loaded(cfg: M.Config, st: M.State, f: nat, sessionId: string): M.State {
    M.Run(cfg, st, CallLabels(st, f, M.LoadRequest(sessionId)))
  }

  function Driven(
    cfg: M.Config, st: M.State, f: nat, sessionId: string, calls: seq<NestedCall>, during: seq<seq<M.Label>>): M.State
    requires |during| == |calls|
  {
    M.Run(cfg, Loaded(cfg, st, f, sessionId), DriveSteps(f, calls, during))
  }

  /** All the steps of an execution: load, the nested calls, and the save if there is one. */
  function ExecutionSteps(
    cfg: M.Config, st: M.State, f: nat, sessionId: string, calls: seq<NestedCall>, during: seq<seq<M.Label>>,
    save: Option<Bytes>): seq<M.Label>
    requires |during| == |calls|
  {
    var driven := Driven(cfg, st, f, sessionId, calls, during);
    CallLabels(st, f, M.LoadRequest(sessionId)) + DriveSteps(f, calls, during) +
    if save.Some? then CallLabels(driven, f, M.SaveRequest(sessionId, save.value)) else []
  }

  lemma StepsRun(
      cfg: M.Config, st: M.State, f: nat, sessionId: string, calls: seq<NestedCall>, during: seq<seq<M.Label>>,
      save: Option<Bytes>)
    requires |during| == |calls|
    ensures
      var driven := Driven(cfg, st, f, sessionId, calls, during);
      M.Run(cfg, st, ExecutionSteps(cfg, st, f, sessionId, calls, during, save)) ==
      if save.Some? then M.Run(cfg, driven, CallLabels(driven, f, M.SaveRequest(sessionId, save.value))) else driven
  {
    var load, drive := CallLabels(st, f, M.LoadRequest(sessionId)), DriveSteps(f, calls, during);
    var driven := Driven(cfg, st, f, sessionId, calls, during);
    RunConcat(cfg, st, load, drive);
    if save.Some? {
      RunConcat(cfg, st, load + drive, CallLabels(driven, f, M.SaveRequest(sessionId, save.value)));
    } else {
      assert load + drive + [] == load + drive;
    }
  }

  /** The frame is as it was, and the state well shaped. */
  ghost predicate Keeps(st: M.State, after: M.State, f: nat) {
    M.LiveFrame(st, f) && ShapeOk(after) && M.LiveFrame(after, f) && after.frames[f] == st.frames[f]
  }

  lemma LoadSteps(cfg: M.Config, st: M.State, f: nat, sessionId: string)
    requires ShapeOk(st) && M.LiveFrame(st, f)
    ensures Keeps(st, Loaded(cfg, st, f, sessionId), f)
    ensures WorldOf(Loaded(cfg, st, f, sessionId)) ==
            Loading(cfg.policies, WorldOf(st), st.frames[f].cx.PolicyView(), sessionId).0
  {
    CallReaches(cfg, st, f, M.LoadRequest(sessionId));
  }

  lemma SaveSteps(cfg: M.Config, st: M.State, f: nat, sessionId: string, bytes: Bytes)
    requires ShapeOk(st) && M.LiveFrame(st, f)
    ensures
      var after := M.Run(cfg, st, CallLabels(st, f, M.SaveRequest(sessionId, bytes)));
      && Keeps(st, after, f)
      && WorldOf(after) == Saving(cfg.policies, WorldOf(st), st.frames[f].cx.PolicyView(), sessionId, bytes).0
  {
    CallReaches(cfg, st, f, M.SaveRequest(sessionId, bytes));
  }

  lemma DriveKeeps(cfg: M.Config, st: M.State, f: nat, calls: seq<NestedCall>, during: seq<seq<M.Label>>)
    requires ShapeOk(st) && M.LiveFrame(st, f)
    requires |during| == |calls| && forall i :: 0 <= i < |during| ==> Spares(f, during[i])
    ensures Keeps(st, M.Run(cfg, st, DriveSteps(f, calls, during)), f)
  {
    DriveSpares(f, calls, during);
    SparedFrameLives(cfg, st, f, DriveSteps(f, calls, during));
    RunKeepsShape(cfg, st, DriveSteps(f, calls, during));
  }

  /**
   * Loading, any nested calls, and a save if there is one: the frame stays as it was,
   * and its own two session calls do what the facades do.
   */
  lemma LoadDriveSave(
      cfg: M.Config, st: M.State, f: nat, sessionId: string, calls: seq<NestedCall>, during: seq<seq<M.Label>>,
      save: Option<Bytes>)
    requires ShapeOk(st) && M.LiveFrame(st, f)
    requires |during| == |calls| && forall i :: 0 <= i < |during| ==> Spares(f, during[i])
    ensures
      var ctx, driven := st.frames[f].cx.PolicyView(), Driven(cfg, st, f, sessionId, calls, during);
      var after := M.Run(cfg, st, ExecutionSteps(cfg, st, f, sessionId, calls, during, save));
      && Keeps(st, after, f)
      && WorldOf(after) ==
         if save.Some? then Saving(cfg.policies, WorldOf(driven), ctx, sessionId, save.value).0 else WorldOf(driven)
  {
    var driven := Driven(cfg, st, f, sessionId, calls, during);
    LoadSteps(cfg, st, f, sessionId);
    DriveKeeps(cfg, Loaded(cfg, st, f, sessionId), f, calls, during);
    StepsRun(cfg, st, f, sessionId, calls, during, save);
    if save.Some? {
      SaveSteps(cfg, driven, f, sessionId, save.value);
    }
  }

  /**
   * An execution is a run: load, the conversation's calls in order, and a save exactly when the tool saves,
   * whatever happens while the calls are out.
   */
  lemma ExecutionIsRun(
      cfg: M.Config, st: M.State, f: nat, tool: MontyTool, round: U64 -> real, sessionId: string, env: Environment,
      during: seq<seq<M.Label>>)
    requires ShapeOk(st) && M.LiveFrame(st, f)
    requires |during| == |NestedCalls(env, DriveFrom(tool, round, env.events, Public, [], []))|
    requires forall i :: 0 <= i < |during| ==> Spares(f, during[i])
    ensures
      var d, ctx := DriveFrom(tool, round, env.events, Public, [], []), st.frames[f].cx.PolicyView();
      var calls, save := NestedCalls(env, d), SavedBytes(env, d);
      var driven := Driven(cfg, st, f, sessionId, calls, during);
      var after := M.Run(cfg, st, ExecutionSteps(cfg, st, f, sessionId, calls, during, save));
      && Keeps(st, after, f)
      && WorldOf(Loaded(cfg, st, f, sessionId)) == Loading(cfg.policies, WorldOf(st), ctx, sessionId).0
      && WorldOf(after) ==
         if save.Some? then Saving(cfg.policies, WorldOf(driven), ctx, sessionId, save.value).0 else WorldOf(driven)
  {
    var d := DriveFrom(tool, round, env.events, Public, [], []);
    LoadSteps(cfg, st, f, sessionId);
    LoadDriveSave(cfg, st, f, sessionId, NestedCalls(env, d), during, SavedBytes(env, d));
  }

  /** A nested call of a conversation enters a frame with the capabilities and the root of the tool's own frame. */
  lemma NestedCallEntersLikeCaller(
      cfg: M.Config, st: M.State, f: nat, tool: MontyTool, round: U64 -> real, env: Environment, call: NestedCall)
    requires ShapeOk(st) && M.LiveFrame(st, f)
    requires call in NestedCalls(env, DriveFrom(tool, round, env.events, Public, [], []))
    ensures KnownTarget(tool, call.path)
    ensures call.path in cfg.tools ==>
      var after := M.Step(cfg, st, M.Invoke(f, call.path, call.capabilitiesOverride));
      && M.LiveFrame(after, |st.frames|)
      && after.frames[|st.frames|].cx == ToolContext(call.path, st.frames[f].cx.effective, st.frames[f].cx.root)
  {
    NestedCallsAreConfined(tool, round, env.events, Public, [], []);
    if call.path in cfg.tools {
      EntersLikeCaller(cfg, st, f, call.path);
    }
  }

  /** A saving execution leaves the interpreter's state under its own workspace and session id, if it may save. */
  lemma SavedExecution(
      cfg: M.Config, st: M.State, f: nat, sessionId: string, calls: seq<NestedCall>, during: seq<seq<M.Label>>,
      bytes: Bytes)
    requires ShapeOk(st) && M.LiveFrame(st, f)
    requires |during| == |calls| && forall i :: 0 <= i < |during| ==> Spares(f, during[i])
    ensures
      var key, ctx := SessionKey(st.frames[f].cx.root, sessionId), st.frames[f].cx.PolicyView();
      var driven := Driven(cfg, st, f, sessionId, calls, during);
      var after := M.Run(cfg, st, ExecutionSteps(cfg, st, f, sessionId, calls, during, Some(bytes)));
      && after.tree == driven.tree
      && after.sessions ==
         if Allowed(cfg.policies, ctx, SessionSaveAction(key, bytes)) then driven.sessions[key := bytes] else driven.sessions
  {
    LoadDriveSave(cfg, st, f, sessionId, calls, during, Some(bytes));
    var after := M.Run(cfg, st, ExecutionSteps(cfg, st, f, sessionId, calls, during, Some(bytes)));
    assert after.sessions == WorldOf(after).sessions && after.tree == WorldOf(after).tree;
  }
}
