/** The machine against the rest of the model: uninterrupted calls, and what declared capabilities can affect. */
module MachineRefinement {
  import opened Wrappers
  import opened CapabilitySet
  import opened Contract
  import opened Paths
  import opened Policies
  import opened Registry
  import opened Pipeline
  import opened Kernel
  import opened Invocation
  import opened Machine

  // ----- Declared capabilities -----

  /** Every top-level call carries an override. */
  ghost predicate Overridden(labels: seq<Label>) {
    forall l :: l in labels && l.Start? ==> l.capabilitiesOverride.Some?
  }

  ghost predicate DifferOnlyInDeclared(cfg: Config, cfg': Config) {
    cfg.policies == cfg'.policies && cfg.tools.Keys == cfg'.tools.Keys
  }

  lemma StepIgnoresDeclared(cfg: Config, cfg': Config, st: State, l: Label)
    requires DifferOnlyInDeclared(cfg, cfg') && (l.Start? ==> l.capabilitiesOverride.Some?)
    ensures Step(cfg, st, l) == Step(cfg', st, l)
  {
    match l
    case Start(tool, _, _) => assert tool in cfg.tools <==> tool in cfg'.tools;
    case Invoke(_, tool, _) => assert tool in cfg.tools <==> tool in cfg'.tools;
    case _ =>
  }

  /** Hosts that differ only in declared capabilities run identically when top-level calls carry overrides. */
  lemma {:induction false} DeclaredCapabilitiesDoNotInterfere(cfg: Config, cfg': Config, st: State, labels: seq<Label>)
    requires DifferOnlyInDeclared(cfg, cfg') && Overridden(labels)
    ensures Run(cfg, st, labels) == Run(cfg', st, labels)
  {
    if labels != [] {
      var before := labels[..|labels| - 1];
      DeclaredCapabilitiesDoNotInterfere(cfg, cfg', st, before);
      StepIgnoresDeclared(cfg, cfg', Run(cfg, st, before), labels[|labels| - 1]);
    }
  }

  // ----- Uninterrupted calls -----

  function Records(log: seq<Event>): seq<GrantRecord> {
    if log == [] then []
    else
      var e := log[|log| - 1];
      Records(log[..|log| - 1]) + if e.Recorded? then [e.record] else []
  }

  function WorldOf(st: State): World {
    World(st.tree, st.sessions, st.nextGrant, Records(st.log))
  }

  /** The world a facade method leaves behind. */
  function Facade(v: View, w: World, ctx: PolicyContext, request: Request): World {
    match request
    case ReadRequest(path) => Reading(v, w, ctx, path).0
    case WriteRequest(path, content) => Writing(v, w, ctx, path, content).0
    case FetchRequest(url) => Fetching(v, w, ctx, url).0
    case LoadRequest(sessionId) => Loading(v, w, ctx, sessionId).0
    case SaveRequest(sessionId, bytes) => Saving(v, w, ctx, sessionId, bytes).0
  }

  lemma RecordsSnoc(log: seq<Event>, e: Event)
    ensures Records(log + [e]) == Records(log) + if e.Recorded? then [e.record] else []
  {
    assert (log + [e])[..|log|] == log;
  }

  /** One grant step of the machine is one grant request of the engine. */
  lemma AuthorizeIsGranting(cfg: Config, st: State, c: nat)
    requires c < |st.calls| && LiveFrame(st, st.calls[c].frame)
    ensures
      var call := st.calls[c];
      var (w, granted) := Granting(cfg.policies, WorldOf(st), st.frames[call.frame].cx.PolicyView(), Asked(call));
      && WorldOf(StepAuthorize(cfg, st, c)) == w
      && (StepAuthorize(cfg, st, c).calls[c].progress == Refused <==> granted.Err?)
  {
    RecordsSnoc(st.log, StepAuthorize(cfg, st, c).log[|st.log|]);
  }

  /** What is left of a facade method once its action is prepared. */
  function Finish(v: View, w: World, ctx: PolicyContext, a: Action): World {
    var (w1, granted) := if HasParent(a) then GrantingBoth(v, w, ctx, FsAction(a.path), a) else Granting(v, w, ctx, a);
    if granted.Err? then w1 else Acted(w1, a)
  }

  lemma FacadeIsPrepareThenFinish(v: View, w: World, cx: ToolContext, request: Request)
    requires Existing(w.tree, Names(cx.root)) == Ok(cx.root)
    ensures Facade(v, w, cx.PolicyView(), request) ==
            match Prepare(w.tree, cx, request)
            case Ok(a) => Finish(v, w, cx.PolicyView(), a)
            case Err(_) => w
  {
    match request
    case ReadRequest(_) =>
    case WriteRequest(_, _) =>
    case FetchRequest(_) =>
    case LoadRequest(_) =>
    case SaveRequest(_, _) =>
  }

  /** The effect of a granted action. */
  function Acted(w: World, a: Action): World {
    match a
    case FsWriteAction(p, content) =>
      (match WriteFile(w.tree, p, content)
       case Some(tree) => w.(tree := tree)
       case None => w)
    case SessionSaveAction(key, bytes) => w.(sessions := w.sessions[key := bytes])
    case _ => w
  }

  lemma PerformAddsNoRecord(st: State, c: nat)
    requires c < |st.calls|
    ensures Records(StepPerform(st, c).log) == Records(st.log)
  {
    RecordsSnoc(st.log, Effect(c, st.calls[c].action));
    assert StepPerform(st, c).log == st.log + [Effect(c, st.calls[c].action)];
  }

  lemma PerformActs(st: State, c: nat)
    requires c < |st.calls|
    ensures WorldOf(StepPerform(st, c)) == Acted(WorldOf(st), st.calls[c].action)
  {
    PerformAddsNoRecord(st, c);
  }

  /** The last grant and the effect. */
  lemma LastGrantThenEffect(cfg: Config, st: State, c: nat)
    requires c < |st.calls| && LiveFrame(st, st.calls[c].frame)
    requires st.calls[c].progress == Vetted || (st.calls[c].progress == Requested && !HasParent(st.calls[c].action))
    ensures
      var call, s1 := st.calls[c], Step(cfg, st, Authorize(c));
      var (w1, granted) := Granting(cfg.policies, WorldOf(st), st.frames[call.frame].cx.PolicyView(), call.action);
      && WorldOf(Step(cfg, s1, Perform(c))) == (if granted.Err? then w1 else Acted(w1, call.action))
      && s1.calls[c].progress in {Refused, Authorized}
  {
    AuthorizeIsGranting(cfg, st, c);
    var s1 := StepAuthorize(cfg, st, c);
    if s1.calls[c].progress == Authorized {
      PerformActs(s1, c);
    }
  }

  /** Two grant steps and the effect, for an action that has a parent. */
  lemma TwoGrantsThenEffect(cfg: Config, st: State, c: nat)
    requires c < |st.calls| && LiveFrame(st, st.calls[c].frame)
    requires st.calls[c].progress == Requested && HasParent(st.calls[c].action)
    ensures
      var call := st.calls[c];
      var s2 := Step(cfg, Step(cfg, st, Authorize(c)), Authorize(c));
      WorldOf(Step(cfg, s2, Perform(c))) ==
      Finish(cfg.policies, WorldOf(st), st.frames[call.frame].cx.PolicyView(), call.action)
  {
    AuthorizeIsGranting(cfg, st, c);
    var s1 := StepAuthorize(cfg, st, c);
    if s1.calls[c].progress == Vetted {
      LastGrantThenEffect(cfg, s1, c);
    }
  }

  /** A second grant step does nothing to a call whose action has no parent. */
  lemma OneGrantThenEffect(cfg: Config, st: State, c: nat)
    requires c < |st.calls| && LiveFrame(st, st.calls[c].frame)
    requires st.calls[c].progress == Requested && !HasParent(st.calls[c].action)
    ensures
      var call := st.calls[c];
      var s2 := Step(cfg, Step(cfg, st, Authorize(c)), Authorize(c));
      WorldOf(Step(cfg, s2, Perform(c))) ==
      Finish(cfg.policies, WorldOf(st), st.frames[call.frame].cx.PolicyView(), call.action)
  {
    LastGrantThenEffect(cfg, st, c);
  }

  lemma RequestedCallFinishes(cfg: Config, st: State, c: nat)
    requires c < |st.calls| && LiveFrame(st, st.calls[c].frame) && st.calls[c].progress == Requested
    ensures
      var call := st.calls[c];
      var s2 := Step(cfg, Step(cfg, st, Authorize(c)), Authorize(c));
      WorldOf(Step(cfg, s2, Perform(c))) ==
      Finish(cfg.policies, WorldOf(st), st.frames[call.frame].cx.PolicyView(), call.action)
  {
    if HasParent(st.calls[c].action) {
      TwoGrantsThenEffect(cfg, st, c);
    } else {
      OneGrantThenEffect(cfg, st, c);
    }
  }

  /** A call whose steps run without interruption has exactly the effect of the facade method. */
  lemma UninterruptedCallIsFacade(cfg: Config, st: State, f: nat, request: Request)
    requires LiveFrame(st, f) && Existing(st.tree, Names(st.frames[f].cx.root)) == Ok(st.frames[f].cx.root)
    ensures
      var c := |st.calls|;
      WorldOf(Run(cfg, st, [Begin(f, request), Authorize(c), Authorize(c), Perform(c)])) ==
      Facade(cfg.policies, WorldOf(st), st.frames[f].cx.PolicyView(), request)
  {
    var c := |st.calls|;
    var s0 := Step(cfg, st, Begin(f, request));
    RunOfFour(cfg, st, Begin(f, request), Authorize(c), Authorize(c), Perform(c));
    FacadeIsPrepareThenFinish(cfg.policies, WorldOf(st), st.frames[f].cx, request);
    if Prepare(st.tree, st.frames[f].cx, request).Ok? {
      RequestedCallFinishes(cfg, s0, c);
    }
  }

  lemma RunSnoc(cfg: Config, st: State, before: seq<Label>, last: Label)
    ensures Run(cfg, st, before + [last]) == Step(cfg, Run(cfg, st, before), last)
  {
    assert (before + [last])[..|before|] == before;
  }

  lemma RunOfFour(cfg: Config, st: State, l0: Label, l1: Label, l2: Label, l3: Label)
    ensures Run(cfg, st, [l0, l1, l2, l3]) == Step(cfg, Step(cfg, Step(cfg, Step(cfg, st, l0), l1), l2), l3)
  {
    assert [l0, l1, l2, l3] == [] + [l0] + [l1] + [l2] + [l3];
    RunSnoc(cfg, st, [], l0);
    RunSnoc(cfg, st, [] + [l0], l1);
    RunSnoc(cfg, st, [] + [l0] + [l1], l2);
    RunSnoc(cfg, st, [] + [l0] + [l1] + [l2], l3);
  }

  lemma RunOfOne(cfg: Config, st: State, l: Label)
    ensures Run(cfg, st, [l]) == Step(cfg, st, l)
  {
    assert [l] == [] + [l];
    RunSnoc(cfg, st, [], l);
  }

  lemma {:induction false} RunConcat(cfg: Config, st: State, first: seq<Label>, rest: seq<Label>)
    ensures Run(cfg, st, first + rest) == Run(cfg, Run(cfg, st, first), rest)
  {
    if rest == [] {
      assert first + rest == first;
    } else {
      var before, last := rest[..|rest| - 1], rest[|rest| - 1];
      RunConcat(cfg, st, first, before);
      RunSnoc(cfg, st, first + before, last);
      assert first + before + [last] == first + rest;
    }
  }

  lemma {:induction false} CallsKeepFrames(cfg: Config, st: State, labels: seq<Label>)
    requires forall l :: l in labels ==> l.Begin? || l.Authorize? || l.Perform?
    ensures Run(cfg, st, labels).frames == st.frames
  {
    if labels != [] {
      CallsKeepFrames(cfg, st, labels[..|labels| - 1]);
      assert labels[|labels| - 1] in labels;
    }
  }
}
