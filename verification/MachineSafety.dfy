/** Safety over whole runs: mediation, authority, grant ids, and what a run may change. */
module MachineSafety {
  import opened Wrappers
  import opened CapabilitySet
  import opened Contract
  import opened Paths
  import opened PathProofs
  import opened Policies
  import opened Registry
  import opened Pipeline
  import opened PipelineProofs
  import opened Kernel
  import opened Invocation
  import opened Machine
  import opened MachineShape

  // ----- The log of one call -----

  /** The events of call `c`, in log order. */
  function CallLog(log: seq<Event>, c: nat): seq<Event> {
    if log == [] then []
    else CallLog(log[..|log| - 1], c) + if log[|log| - 1].call == c then [log[|log| - 1]] else []
  }

  lemma CallLogSnoc(log: seq<Event>, e: Event, c: nat)
    ensures CallLog(log + [e], c) == CallLog(log, c) + if e.call == c then [e] else []
  {
    assert (log + [e])[..|log|] == log;
  }

  lemma {:induction false} CallLogHas(log: seq<Event>, e: Event)
    requires e in log
    ensures e in CallLog(log, e.call)
  {
    if e != log[|log| - 1] {
      assert e in log[..|log| - 1];
      CallLogHas(log[..|log| - 1], e);
    }
  }

  /** The actions a call must be granted before its effect. */
  function GrantTrail(a: Action): seq<Action> {
    if HasParent(a) then [FsAction(a.path), a] else [a]
  }

  /** An allow record for exactly this action, by these policies, in this frame's context. */
  ghost predicate AllowRecord(cfg: Config, cx: ToolContext, e: Event, a: Action) {
    && e.Recorded? && e.asked == a
    && e.record.decision.AllowGrant?
    && e.record.actionKind == AuditKind(a) && e.record.resource == Resource(a)
    && Allowed(cfg.policies, cx.PolicyView(), a)
  }

  ghost predicate DenyRecord(cfg: Config, cx: ToolContext, e: Event, a: Action) {
    && e.Recorded? && e.asked == a
    && e.record.decision.DenyGrant?
    && e.record.actionKind == AuditKind(a) && e.record.resource == Resource(a)
    && !Allowed(cfg.policies, cx.PolicyView(), a)
  }

  ghost predicate AllowRecords(cfg: Config, cx: ToolContext, events: seq<Event>, trail: seq<Action>) {
    && |events| == |trail|
    && forall i :: 0 <= i < |events| ==> AllowRecord(cfg, cx, events[i], trail[i])
  }

  /** What the log holds for a call that has come this far. */
  ghost predicate Follows(cfg: Config, cx: ToolContext, c: nat, call: Call, events: seq<Event>) {
    var trail := GrantTrail(call.action);
    match call.progress
    case Requested => events == []
    case Vetted => HasParent(call.action) && AllowRecords(cfg, cx, events, trail[..1])
    case Authorized => AllowRecords(cfg, cx, events, trail)
    case Performed =>
      && |events| == |trail| + 1
      && AllowRecords(cfg, cx, events[..|trail|], trail)
      && events[|trail|] == Effect(c, call.action)
    case Refused =>
      && 0 < |events| <= |trail|
      && AllowRecords(cfg, cx, events[..|events| - 1], trail[..|events| - 1])
      && DenyRecord(cfg, cx, events[|events| - 1], trail[|events| - 1])
  }

  ghost predicate CallFollows(cfg: Config, st: State, c: nat)
    requires c < |st.calls|
  {
    && st.calls[c].frame < |st.frames|
    && Follows(cfg, st.frames[st.calls[c].frame].cx, c, st.calls[c], CallLog(st.log, c))
  }

  ghost predicate ProtocolOk(cfg: Config, st: State) {
    && (forall c :: 0 <= c < |st.calls| ==> CallFollows(cfg, st, c))
    && (forall e :: e in st.log ==> e.call < |st.calls|)
  }

  lemma {:induction false} UnusedCallLog(log: seq<Event>, c: nat)
    requires forall e :: e in log ==> e.call < c
    ensures CallLog(log, c) == []
  {
    if log != [] {
      assert log[|log| - 1] in log;
      UnusedCallLog(log[..|log| - 1], c);
    }
  }

  /** The record of one request says exactly what the policies decided about it. */
  lemma RecordTellsDecision(cfg: Config, cx: ToolContext, c: nat, a: Action, nextId: nat)
    ensures
      var e := Recorded(c, a, RecordFor(cfg.policies, nextId, cx.PolicyView(), a));
      if e.record.decision.AllowGrant? then AllowRecord(cfg, cx, e, a) else DenyRecord(cfg, cx, e, a)
  {
  }

  lemma GrantFollows(cfg: Config, cx: ToolContext, c: nat, call: Call, events: seq<Event>, nextId: nat)
    requires Follows(cfg, cx, c, call, events) && (call.progress == Requested || call.progress == Vetted)
    ensures
      var record := RecordFor(cfg.policies, nextId, cx.PolicyView(), Asked(call));
      Follows(cfg, cx, c, call.(progress := AfterGrant(call, record)), events + [Recorded(c, Asked(call), record)])
  {
    RecordTellsDecision(cfg, cx, c, Asked(call), nextId);
    var trail := GrantTrail(call.action);
    assert Asked(call) == trail[|events|];
    assert trail[..0] == [];
  }

  lemma OtherCallsFollow(cfg: Config, st: State, after: State, e: Event, c: nat)
    requires c < |st.calls| && CallFollows(cfg, st, c) && Continues(st, after)
    requires after.log == st.log + [e] && e.call != c && after.calls[c] == st.calls[c]
    ensures CallFollows(cfg, after, c)
  {
    CallLogSnoc(st.log, e, c);
  }

  lemma QuietStepFollows(cfg: Config, st: State, after: State)
    requires ProtocolOk(cfg, st) && Continues(st, after) && after.log == st.log
    requires forall c :: 0 <= c < |st.calls| ==> after.calls[c] == st.calls[c]
    requires forall c :: |st.calls| <= c < |after.calls| ==>
      after.calls[c].progress == Requested && after.calls[c].frame < |after.frames|
    ensures ProtocolOk(cfg, after)
  {
    forall c | 0 <= c < |after.calls|
      ensures CallFollows(cfg, after, c)
    {
      if c < |st.calls| {
        assert CallFollows(cfg, st, c);
      } else {
        UnusedCallLog(st.log, c);
      }
    }
  }

  lemma LoudStepFollows(cfg: Config, st: State, after: State, e: Event)
    requires ProtocolOk(cfg, st) && Continues(st, after) && after.log == st.log + [e]
    requires |after.calls| == |st.calls| && e.call < |st.calls|
    requires forall c :: 0 <= c < |st.calls| && c != e.call ==> after.calls[c] == st.calls[c]
    requires CallFollows(cfg, after, e.call)
    ensures ProtocolOk(cfg, after)
  {
    forall c | 0 <= c < |after.calls|
      ensures CallFollows(cfg, after, c)
    {
      if c != e.call {
        assert CallFollows(cfg, st, c);
        OtherCallsFollow(cfg, st, after, e, c);
      }
    }
  }

  lemma MovedFollows(cfg: Config, st: State, after: State, c: nat, progress: Progress, e: Event)
    requires ProtocolOk(cfg, st) && c < |st.calls| && Moved(st, after, c, progress, e) && e.call == c
    requires st.calls[c].frame < |st.frames|
    requires
      var call := st.calls[c];
      Follows(cfg, st.frames[call.frame].cx, c, call.(progress := progress), CallLog(st.log, c) + [e])
    ensures ProtocolOk(cfg, after)
  {
    MovedContinues(st, after, c, progress, e);
    CallLogSnoc(st.log, e, c);
    LoudStepFollows(cfg, st, after, e);
  }

  lemma AuthorizeFollows(cfg: Config, st: State, c: nat)
    requires ProtocolOk(cfg, st) && c < |st.calls| && LiveFrame(st, st.calls[c].frame)
    requires st.calls[c].progress == Requested || st.calls[c].progress == Vetted
    ensures ProtocolOk(cfg, StepAuthorize(cfg, st, c))
  {
    var call, cx := st.calls[c], st.frames[st.calls[c].frame].cx;
    var record := RecordFor(cfg.policies, st.nextGrant, cx.PolicyView(), Asked(call));
    assert CallFollows(cfg, st, c);
    AuthorizeMoves(cfg, st, c);
    GrantFollows(cfg, cx, c, call, CallLog(st.log, c), st.nextGrant);
    MovedFollows(cfg, st, StepAuthorize(cfg, st, c), c, AfterGrant(call, record), Recorded(c, Asked(call), record));
  }

  lemma EffectFollows(cfg: Config, cx: ToolContext, c: nat, call: Call, events: seq<Event>)
    requires Follows(cfg, cx, c, call, events) && call.progress == Authorized
    ensures Follows(cfg, cx, c, call.(progress := Performed), events + [Effect(c, call.action)])
  {
    assert (events + [Effect(c, call.action)])[..|events|] == events;
  }

  lemma PerformFollows(cfg: Config, st: State, c: nat)
    requires ProtocolOk(cfg, st) && c < |st.calls| && st.calls[c].progress == Authorized
    ensures ProtocolOk(cfg, StepPerform(st, c))
  {
    var call := st.calls[c];
    assert CallFollows(cfg, st, c);
    PerformMoves(st, c);
    EffectFollows(cfg, st.frames[call.frame].cx, c, call, CallLog(st.log, c));
    MovedFollows(cfg, st, StepPerform(st, c), c, Performed, Effect(c, call.action));
  }

  lemma StepKeepsProtocol(cfg: Config, st: State, l: Label)
    requires ProtocolOk(cfg, st)
    ensures ProtocolOk(cfg, Step(cfg, st, l))
  {
    var after := Step(cfg, st, l);
    StepContinues(cfg, st, l);
    if after != st {
      match l
      case Authorize(c) => AuthorizeFollows(cfg, st, c);
      case Perform(c) => PerformFollows(cfg, st, c);
      case _ => QuietStepFollows(cfg, st, after);
    }
  }

  lemma {:induction false} RunKeepsProtocol(cfg: Config, tree: Tree, sessions: map<SessionKey, Bytes>, labels: seq<Label>)
    ensures ProtocolOk(cfg, Run(cfg, Initial(tree, sessions), labels))
  {
    if labels != [] {
      var before := labels[..|labels| - 1];
      RunKeepsProtocol(cfg, tree, sessions, before);
      StepKeepsProtocol(cfg, Run(cfg, Initial(tree, sessions), before), labels[|labels| - 1]);
    }
  }

  lemma AllowedEvent(cfg: Config, cx: ToolContext, events: seq<Event>, trail: seq<Action>, k: nat, e: Event)
    requires k <= |trail| && AllowRecords(cfg, cx, events, trail[..k]) && e in events
    ensures e.Recorded? && e.asked in trail
  {
    var i :| 0 <= i < |events| && events[i] == e;
    assert AllowRecord(cfg, cx, events[i], trail[..k][i]);
    assert trail[..k][i] == trail[i];
  }

  lemma LastOrEarlier<T>(xs: seq<T>, x: T)
    requires x in xs
    ensures x == xs[|xs| - 1] || x in xs[..|xs| - 1]
  {
    var i :| 0 <= i < |xs| && xs[i] == x;
    if i < |xs| - 1 { assert xs[..|xs| - 1][i] == x; }
  }

  /** An event of a call is its one effect, performed, or the record of an action of its trail. */
  lemma EventOfCall(cfg: Config, cx: ToolContext, c: nat, call: Call, events: seq<Event>, e: Event)
    requires Follows(cfg, cx, c, call, events) && e in events
    ensures if e.Effect? then call.progress == Performed && e.action == call.action
            else e.asked in GrantTrail(call.action)
  {
    var trail, k := GrantTrail(call.action), |events| - 1;
    LastOrEarlier(events, e);
    assert trail[..|trail|] == trail;
    match call.progress
    case Requested =>
    case Vetted => AllowedEvent(cfg, cx, events, trail, 1, e);
    case Authorized => AllowedEvent(cfg, cx, events, trail, |trail|, e);
    case Performed => if e != events[k] { AllowedEvent(cfg, cx, events[..k], trail, |trail|, e); }
    case Refused => if e != events[k] { AllowedEvent(cfg, cx, events[..k], trail, k, e); }
  }

  lemma EffectsFollow(cfg: Config, tree: Tree, sessions: map<SessionKey, Bytes>, labels: seq<Label>, c: nat, a: Action)
    requires Effect(c, a) in Run(cfg, Initial(tree, sessions), labels).log
    ensures
      var st := Run(cfg, Initial(tree, sessions), labels);
      && c < |st.calls| && st.calls[c].action == a && st.calls[c].frame < |st.frames|
      && st.calls[c].progress == Performed
      && Follows(cfg, st.frames[st.calls[c].frame].cx, c, st.calls[c], CallLog(st.log, c))
  {
    var st := Run(cfg, Initial(tree, sessions), labels);
    RunKeepsProtocol(cfg, tree, sessions, labels);
    assert CallFollows(cfg, st, c);
    CallLogHas(st.log, Effect(c, a));
    EventOfCall(cfg, st.frames[st.calls[c].frame].cx, c, st.calls[c], CallLog(st.log, c), Effect(c, a));
  }

  lemma {:induction false} CallLogConcat(xs: seq<Event>, ys: seq<Event>, c: nat)
    ensures CallLog(xs + ys, c) == CallLog(xs, c) + CallLog(ys, c)
  {
    if ys == [] {
      assert xs + ys == xs;
    } else {
      var init, last := ys[..|ys| - 1], ys[|ys| - 1];
      assert ys == init + [last] && xs + ys == (xs + init) + [last];
      CallLogConcat(xs, init, c);
      CallLogSnoc(xs + init, last, c);
      CallLogSnoc(init, last, c);
    }
  }

  lemma CallLogAround(xs: seq<Event>, e: Event, ys: seq<Event>)
    ensures CallLog(xs + ([e] + ys), e.call) == CallLog(xs, e.call) + ([e] + CallLog(ys, e.call))
  {
    CallLogConcat(xs, [e] + ys, e.call);
    CallLogConcat([e], ys, e.call);
    assert CallLog([e], e.call) == [e];
  }

  /** With one effect, at its end, a call's log splits at that effect. */
  lemma SplitAtEffect(
      cfg: Config, cx: ToolContext, trail: seq<Action>, c: nat, a: Action,
      events: seq<Event>, xs: seq<Event>, ys: seq<Event>)
    requires |events| == |trail| + 1 && AllowRecords(cfg, cx, events[..|trail|], trail) && events[|trail|] == Effect(c, a)
    requires events == xs + ([Effect(c, a)] + ys)
    ensures ys == [] && AllowRecords(cfg, cx, xs, trail)
  {
    assert events[|xs|] == Effect(c, a);
    assert forall j :: 0 <= j < |trail| ==> events[..|trail|][j] == events[j];
    assert events[..|trail|] == xs;
  }

  lemma PerformedLogSplits(cfg: Config, cx: ToolContext, c: nat, call: Call, log: seq<Event>, k: nat)
    requires k < |log| && log[k] == Effect(c, call.action) && call.progress == Performed
    requires Follows(cfg, cx, c, call, CallLog(log, c))
    ensures AllowRecords(cfg, cx, CallLog(log[..k], c), GrantTrail(call.action)) && CallLog(log[k + 1..], c) == []
  {
    var xs, ys := log[..k], log[k + 1..];
    assert log == xs + ([log[k]] + ys);
    CallLogAround(xs, log[k], ys);
    SplitAtEffect(cfg, cx, GrantTrail(call.action), c, call.action, CallLog(log, c), CallLog(xs, c), CallLog(ys, c));
  }

  /**
   * Complete mediation: in every run, when an effect happens its own call has so far logged exactly one allow record
   * for each action of its grant trail (the parent and then the concrete action for files), each naming that resource,
   * and the call logs nothing afterwards.
   */
  lemma EffectsAreMediated(cfg: Config, tree: Tree, sessions: map<SessionKey, Bytes>, labels: seq<Label>, k: nat)
    requires var log := Run(cfg, Initial(tree, sessions), labels).log; k < |log| && log[k].Effect?
    ensures
      var st := Run(cfg, Initial(tree, sessions), labels);
      var c, a := st.log[k].call, st.log[k].action;
      && c < |st.calls| && st.calls[c].action == a && st.calls[c].frame < |st.frames|
      && AllowRecords(cfg, st.frames[st.calls[c].frame].cx, CallLog(st.log[..k], c), GrantTrail(a))
      && CallLog(st.log[k + 1..], c) == []
  {
    var st := Run(cfg, Initial(tree, sessions), labels);
    var c := st.log[k].call;
    EffectsFollow(cfg, tree, sessions, labels, c, st.log[k].action);
    PerformedLogSplits(cfg, st.frames[st.calls[c].frame].cx, c, st.calls[c], st.log, k);
  }

  // ----- Authority -----

  ghost predicate IsAncestor(frames: seq<Frame>, j: nat, i: nat)
    requires i < |frames|
    decreases i
  {
    i == j || (frames[i].parent.Some? && frames[i].parent.value < i && IsAncestor(frames, j, frames[i].parent.value))
  }

  /** The top-level frame a frame descends from. */
  function RootOf(frames: seq<Frame>, i: nat): (root: nat)
    requires i < |frames|
    ensures root <= i
    decreases i
  {
    if frames[i].parent.Some? && frames[i].parent.value < i then RootOf(frames, frames[i].parent.value) else i
  }

  lemma {:induction false} AncestorsHaveMore(tree: Tree, frames: seq<Frame>, j: nat, i: nat)
    requires FramesOk(tree, frames) && i < |frames| && IsAncestor(frames, j, i)
    ensures j <= i && frames[j].cx.root == frames[i].cx.root
    ensures Contains(frames[j].cx.effective, frames[i].cx.effective)
    decreases i
  {
    assert FrameOk(tree, frames, i);
    if i == j {
      ContainsReflexive(frames[i].cx.effective);
    } else {
      var p := frames[i].parent.value;
      AncestorsHaveMore(tree, frames, j, p);
      ContainsTransitive(frames[j].cx.effective, frames[p].cx.effective, frames[i].cx.effective);
    }
  }

  lemma {:induction false} RootIsAncestor(frames: seq<Frame>, i: nat)
    requires i < |frames|
    ensures IsAncestor(frames, RootOf(frames, i), i)
    decreases i
  {
    if frames[i].parent.Some? && frames[i].parent.value < i {
      RootIsAncestor(frames, frames[i].parent.value);
    }
  }

  lemma InitialShape(tree: Tree, sessions: map<SessionKey, Bytes>)
    requires WellFormed(tree)
    ensures ShapeOk(Initial(tree, sessions))
  {
  }

  /** In every reachable state a frame has at most the capabilities of each of its ancestors, and the same root. */
  lemma AuthorityNeverGrows(cfg: Config, tree: Tree, sessions: map<SessionKey, Bytes>, labels: seq<Label>, j: nat, i: nat)
    requires WellFormed(tree)
    requires var frames := Run(cfg, Initial(tree, sessions), labels).frames; i < |frames| && IsAncestor(frames, j, i)
    ensures
      var frames := Run(cfg, Initial(tree, sessions), labels).frames;
      j < |frames| && Contains(frames[j].cx.effective, frames[i].cx.effective) && frames[j].cx.root == frames[i].cx.root
  {
    InitialShape(tree, sessions);
    RunKeepsShape(cfg, Initial(tree, sessions), labels);
    AncestorsHaveMore(tree := Run(cfg, Initial(tree, sessions), labels).tree,
                      frames := Run(cfg, Initial(tree, sessions), labels).frames, j := j, i := i);
  }

  /** A performed call was allowed its own action, not only the parent. */
  lemma PerformedWasAllowed(cfg: Config, cx: ToolContext, c: nat, call: Call, events: seq<Event>)
    requires Follows(cfg, cx, c, call, events) && call.progress == Performed
    ensures Allowed(cfg.policies, cx.PolicyView(), call.action)
  {
    var trail := GrantTrail(call.action);
    assert AllowRecord(cfg, cx, events[..|trail|][|trail| - 1], trail[|trail| - 1]);
  }

  lemma HoldsForMore(more: Capabilities, caps: Capabilities, a: Action)
    requires Contains(more, caps) && HoldsFor(caps, a)
    ensures HoldsFor(more, a)
  {
    HoldsForIsRequired(caps, a);
    HoldsForIsRequired(more, a);
    ContainsTransitive(more, caps, Required(a));
  }

  /** Whatever tools do, an effect at any depth needs only capabilities its top-level frame was given. */
  lemma EffectsStayInRootEnvelope(
      cfg: Config, tree: Tree, sessions: map<SessionKey, Bytes>, labels: seq<Label>, c: nat, a: Action)
    requires WellFormed(tree) && Enveloped(cfg.policies)
    requires Effect(c, a) in Run(cfg, Initial(tree, sessions), labels).log
    ensures
      var st := Run(cfg, Initial(tree, sessions), labels);
      && c < |st.calls| && st.calls[c].frame < |st.frames|
      && HoldsFor(st.frames[RootOf(st.frames, st.calls[c].frame)].cx.effective, a)
  {
    var st := Run(cfg, Initial(tree, sessions), labels);
    EffectsFollow(cfg, tree, sessions, labels, c, a);
    var f := st.calls[c].frame;
    PerformedWasAllowed(cfg, st.frames[f].cx, c, st.calls[c], CallLog(st.log, c));
    AllowedIsWithinEnvelope(cfg.policies, st.frames[f].cx.PolicyView(), a);
    RootIsAncestor(st.frames, f);
    AuthorityNeverGrows(cfg, tree, sessions, labels, RootOf(st.frames, f), f);
    HoldsForMore(st.frames[RootOf(st.frames, f)].cx.effective, st.frames[f].cx.effective, a);
  }

  /** The kernel starts with the envelope inbound, so every sequence of registrations keeps the bound. */
  lemma RegistrationsKeepEnvelope(rs: seq<Registration>)
    ensures Enveloped(RegisterAll(Register(EMPTY_VIEW, Registration(true, InboundSlot, CAPABILITY_ENVELOPE_POLICY)), rs))
  {
    var v := Register(EMPTY_VIEW, Registration(true, InboundSlot, CAPABILITY_ENVELOPE_POLICY));
    var r := Registered(1, CAPABILITY_ENVELOPE_POLICY);
    assert v.inbound == [r];
    assert IsEnvelope(r.policy);
    EnvelopeStays(v, rs);
  }

  // ----- Grant ids -----

  function AllowIds(log: seq<Event>): seq<nat> {
    if log == [] then []
    else
      var e := log[|log| - 1];
      AllowIds(log[..|log| - 1]) + if e.Recorded? && e.record.decision.AllowGrant? then [e.record.decision.id] else []
  }

  lemma AllowIdsSnoc(log: seq<Event>, e: Event)
    ensures AllowIds(log + [e]) ==
            AllowIds(log) + if e.Recorded? && e.record.decision.AllowGrant? then [e.record.decision.id] else []
  {
    assert (log + [e])[..|log|] == log;
  }

  ghost predicate IdsOk(log: seq<Event>, nextGrant: nat) {
    var ids := AllowIds(log);
    && nextGrant == (|ids| + 1) % U64_VALUES
    && forall i :: 0 <= i < |ids| ==> ids[i] == (i + 1) % U64_VALUES
  }

  lemma NextOfNth(n: nat)
    ensures NextId((n + 1) % U64_VALUES) == (n + 2) % U64_VALUES
  {
  }

  lemma RecordKeepsIds(log: seq<Event>, nextGrant: nat, c: nat, a: Action, record: GrantRecord)
    requires IdsOk(log, nextGrant)
    requires record.decision.AllowGrant? ==> record.decision.id == nextGrant
    ensures IdsOk(log + [Recorded(c, a, record)], IdAfter(record, nextGrant))
  {
    AllowIdsSnoc(log, Recorded(c, a, record));
    NextOfNth(|AllowIds(log)|);
  }

  lemma EffectKeepsIds(log: seq<Event>, nextGrant: nat, c: nat, a: Action)
    requires IdsOk(log, nextGrant)
    ensures IdsOk(log + [Effect(c, a)], nextGrant)
  {
    AllowIdsSnoc(log, Effect(c, a));
  }

  lemma AuthorizeExtendsIds(cfg: Config, st: State, c: nat, log: seq<Event>)
    requires IdsOk(log, st.nextGrant) && c < |st.calls| && LiveFrame(st, st.calls[c].frame)
    ensures
      var after := StepAuthorize(cfg, st, c);
      st.log <= after.log && IdsOk(log + after.log[|st.log|..], after.nextGrant)
  {
    var asked, cx := Asked(st.calls[c]), st.frames[st.calls[c].frame].cx;
    var record := RecordFor(cfg.policies, st.nextGrant, cx.PolicyView(), asked);
    RecordKeepsIds(log, st.nextGrant, c, asked, record);
    assert StepAuthorize(cfg, st, c).log[|st.log|..] == [Recorded(c, asked, record)];
  }

  lemma PerformExtendsIds(st: State, c: nat, log: seq<Event>)
    requires IdsOk(log, st.nextGrant) && c < |st.calls|
    ensures
      var after := StepPerform(st, c);
      st.log <= after.log && IdsOk(log + after.log[|st.log|..], after.nextGrant)
  {
    EffectKeepsIds(log, st.nextGrant, c, st.calls[c].action);
    PerformMoves(st, c);
    assert StepPerform(st, c).log[|st.log|..] == [Effect(c, st.calls[c].action)];
  }

  lemma QuietSteps(cfg: Config, st: State, l: Label)
    requires !l.Authorize? && !l.Perform?
    ensures Step(cfg, st, l).log == st.log && Step(cfg, st, l).nextGrant == st.nextGrant
  {
  }

  /** One step only lengthens the log, and extends any log whose ids end at the state's counter. */
  lemma StepExtendsIds(cfg: Config, st: State, l: Label, log: seq<Event>)
    requires IdsOk(log, st.nextGrant)
    ensures
      var after := Step(cfg, st, l);
      st.log <= after.log && IdsOk(log + after.log[|st.log|..], after.nextGrant)
  {
    assert log + st.log[|st.log|..] == log;
    match l
    case Authorize(c) => if Step(cfg, st, l) != st { AuthorizeExtendsIds(cfg, st, c, log); }
    case Perform(c) => if Step(cfg, st, l) != st { PerformExtendsIds(st, c, log); }
    case _ => QuietSteps(cfg, st, l);
  }

  /** The n-th allow record of any run carries id n (modulo the word size); denials consume none. */
  lemma {:induction false} GrantIdsAreGapFree(cfg: Config, tree: Tree, sessions: map<SessionKey, Bytes>, labels: seq<Label>)
    ensures
      var st := Run(cfg, Initial(tree, sessions), labels);
      IdsOk(st.log, st.nextGrant)
  {
    if labels != [] {
      var before := labels[..|labels| - 1];
      GrantIdsAreGapFree(cfg, tree, sessions, before);
      var mid := Run(cfg, Initial(tree, sessions), before);
      StepExtendsIds(cfg, mid, labels[|labels| - 1], mid.log);
      var log := Run(cfg, Initial(tree, sessions), labels).log;
      assert log == mid.log + log[|mid.log|..];
    }
  }

  lemma SmallIds(log: seq<Event>, nextGrant: nat)
    requires IdsOk(log, nextGrant) && |AllowIds(log)| < U64_VALUES
    ensures forall i :: 0 <= i < |AllowIds(log)| ==> AllowIds(log)[i] == i + 1
  {
    var ids := AllowIds(log);
    forall i | 0 <= i < |ids|
      ensures ids[i] == i + 1
    {
      SmallRemainder(i + 1);
    }
  }

  lemma SmallRemainder(n: nat)
    requires n < U64_VALUES
    ensures n % U64_VALUES == n
  {
  }

  /** Below the word size the ids issued are 1 to n, each once. */
  lemma GrantIdsAreUnique(cfg: Config, tree: Tree, sessions: map<SessionKey, Bytes>, labels: seq<Label>)
    requires |AllowIds(Run(cfg, Initial(tree, sessions), labels).log)| < U64_VALUES
    ensures
      var ids := AllowIds(Run(cfg, Initial(tree, sessions), labels).log);
      forall i :: 0 <= i < |ids| ==> ids[i] == i + 1
  {
    GrantIdsAreGapFree(cfg, tree, sessions, labels);
    var st := Run(cfg, Initial(tree, sessions), labels);
    SmallIds(st.log, st.nextGrant);
  }

  // ----- What a run may change -----

  ghost predicate Changed<K, V>(before: map<K, V>, after: map<K, V>, key: K) {
    (key in before) != (key in after) || (key in before && before[key] != after[key])
  }

  ghost predicate WrittenThrough(tree: Tree, log: seq<Event>, q: Path) {
    exists c: nat, p, content :: Effect(c, FsWriteAction(p, content)) in log && Landing(tree, p) == Some(q)
  }

  ghost predicate SavedBy(log: seq<Event>, key: SessionKey) {
    exists c: nat, bytes :: Effect(c, SessionSaveAction(key, bytes)) in log
  }

  ghost predicate ChangesOk(tree: Tree, sessions: map<SessionKey, Bytes>, st: State) {
    && (forall q :: Changed(tree, st.tree, q) ==> WrittenThrough(tree, st.log, q))
    && (forall key :: Changed(sessions, st.sessions, key) ==> SavedBy(st.log, key))
  }

  lemma LongerLogKeepsChanges(tree: Tree, sessions: map<SessionKey, Bytes>, st: State, log: seq<Event>)
    requires ChangesOk(tree, sessions, st) && st.log <= log
    ensures ChangesOk(tree, sessions, st.(log := log))
  {
    forall q | Changed(tree, st.tree, q)
      ensures WrittenThrough(tree, log, q)
    {
      var c: nat, p, content :| Effect(c, FsWriteAction(p, content)) in st.log && Landing(tree, p) == Some(q);
      assert Effect(c, FsWriteAction(p, content)) in log;
    }
    forall key | Changed(sessions, st.sessions, key)
      ensures SavedBy(log, key)
    {
      var c: nat, bytes :| Effect(c, SessionSaveAction(key, bytes)) in st.log;
      assert Effect(c, SessionSaveAction(key, bytes)) in log;
    }
  }

  lemma PerformKeepsChanges(tree: Tree, sessions: map<SessionKey, Bytes>, st: State, c: nat)
    requires ChangesOk(tree, sessions, st) && c < |st.calls|
    requires WellFormed(st.tree) && Grown(tree, st.tree)
    ensures ChangesOk(tree, sessions, StepPerform(st, c))
  {
    var after := StepPerform(st, c);
    LongerLogKeepsChanges(tree, sessions, st, after.log);
    var e := Effect(c, st.calls[c].action);
    assert e in after.log;
    match st.calls[c].action
    case FsWriteAction(p, content) =>
      if WriteFile(st.tree, p, content).Some? {
        GrownKeepsLandings(tree, st.tree, [], Names(p), MAX_LINKS);
        WriteGrows(st.tree, p, content);
        var q := Landing(st.tree, p).value;
        assert Landing(tree, p) == Some(q);
        assert WrittenThrough(tree, after.log, q);
        forall r | Changed(tree, after.tree, r)
          ensures WrittenThrough(tree, after.log, r)
        {
          assert r != q ==> Changed(tree, st.tree, r);
        }
      }
    case SessionSaveAction(key, bytes) =>
      assert SavedBy(after.log, key);
      forall k | Changed(sessions, after.sessions, k)
        ensures SavedBy(after.log, k)
      {
        assert k != key ==> Changed(sessions, st.sessions, k);
      }
    case _ =>
  }

  lemma StepKeepsChanges(cfg: Config, tree: Tree, sessions: map<SessionKey, Bytes>, st: State, l: Label)
    requires ChangesOk(tree, sessions, st) && WellFormed(st.tree) && Grown(tree, st.tree)
    ensures ChangesOk(tree, sessions, Step(cfg, st, l))
  {
    var after := Step(cfg, st, l);
    if after != st {
      if l.Perform? {
        PerformKeepsChanges(tree, sessions, st, l.call);
      } else {
        OnlyPerformWrites(cfg, st, l);
        LongerLogKeepsChanges(tree, sessions, st, after.log);
      }
    }
  }

  /** Every file a run changed is where a performed write landed, every session one that was performed as saved. */
  lemma {:induction false} ChangesAreAttributed(cfg: Config, tree: Tree, sessions: map<SessionKey, Bytes>, labels: seq<Label>)
    requires WellFormed(tree)
    ensures ChangesOk(tree, sessions, Run(cfg, Initial(tree, sessions), labels))
  {
    if labels != [] {
      var before := labels[..|labels| - 1];
      ChangesAreAttributed(cfg, tree, sessions, before);
      InitialShape(tree, sessions);
      RunKeepsShape(cfg, Initial(tree, sessions), before);
      StepKeepsChanges(cfg, tree, sessions, Run(cfg, Initial(tree, sessions), before), labels[|labels| - 1]);
    }
  }

  /** No top-level frame was given this slot. */
  ghost predicate NoTopFrameHolds(frames: seq<Frame>, slot: Capability) {
    forall i :: 0 <= i < |frames| && frames[i].parent == None ==> !Contains(frames[i].cx.effective, Bit(slot))
  }

  lemma {:induction false} RootHasNoParent(st: State, i: nat)
    requires FramesOk(st.tree, st.frames) && i < |st.frames|
    ensures st.frames[RootOf(st.frames, i)].parent == None
    decreases i
  {
    assert FrameOk(st.tree, st.frames, i);
    if st.frames[i].parent.Some? {
      RootHasNoParent(st, st.frames[i].parent.value);
    }
  }

  /** The slot without which an action of this kind may not happen. */
  ghost predicate Guards(slot: Capability, a: Action) {
    match slot
    case CapFsRead => a.FsReadAction?
    case CapFsWrite => a.FsWriteAction?
    case NetworkFetch => a.NetworkFetchAction?
    case _ => false
  }

  /**
   * If no top-level frame was given FsRead no run reads a file, without FsWrite none writes one,
   * and without NetworkFetch none fetches, however deeply tools nest.
   */
  lemma NoEffectWithoutSlot(
      cfg: Config, tree: Tree, sessions: map<SessionKey, Bytes>, labels: seq<Label>, slot: Capability, c: nat, a: Action)
    requires WellFormed(tree) && Enveloped(cfg.policies) && Guards(slot, a)
    requires NoTopFrameHolds(Run(cfg, Initial(tree, sessions), labels).frames, slot)
    ensures Effect(c, a) !in Run(cfg, Initial(tree, sessions), labels).log
  {
    var st := Run(cfg, Initial(tree, sessions), labels);
    if Effect(c, a) in st.log {
      EffectsStayInRootEnvelope(cfg, tree, sessions, labels, c, a);
      InitialShape(tree, sessions);
      RunKeepsShape(cfg, Initial(tree, sessions), labels);
      RootHasNoParent(st, st.calls[c].frame);
    }
  }

  lemma NoChangesSameMap<K, V>(before: map<K, V>, after: map<K, V>)
    requires forall key :: !Changed(before, after, key)
    ensures before == after
  {
    forall key
      ensures key in before <==> key in after
      ensures key in before && key in after ==> before[key] == after[key]
    {
      assert !Changed(before, after, key);
    }
  }

  /** If no top-level frame was given FsWrite, no file changes, however deeply tools nest. */
  lemma NoWriteCapabilityNoFileChange(cfg: Config, tree: Tree, sessions: map<SessionKey, Bytes>, labels: seq<Label>)
    requires WellFormed(tree) && Enveloped(cfg.policies)
    requires NoTopFrameHolds(Run(cfg, Initial(tree, sessions), labels).frames, CapFsWrite)
    ensures Run(cfg, Initial(tree, sessions), labels).tree == tree
  {
    var st := Run(cfg, Initial(tree, sessions), labels);
    ChangesAreAttributed(cfg, tree, sessions, labels);
    forall q
      ensures !Changed(tree, st.tree, q)
    {
      if Changed(tree, st.tree, q) {
        assert WrittenThrough(tree, st.log, q);
        var c: nat, p, content :| Effect(c, FsWriteAction(p, content)) in st.log && Landing(tree, p) == Some(q);
        NoEffectWithoutSlot(cfg, tree, sessions, labels, CapFsWrite, c, FsWriteAction(p, content));
      }
    }
    NoChangesSameMap(tree, st.tree);
  }

  /** A write target below a root whose links stay inside lands below that root, on a directory, or nowhere. */
  lemma LandingOfTarget(before: Tree, after: Tree, root: Path, p: Path)
    requires WellFormed(before) && WellFormed(after) && Grown(before, after)
    requires LinksStayInside(before, root) && root <= p
    requires Anchored(after, p)
    ensures Landing(before, p).Some? ==> root <= Landing(before, p).value || IsDirectory(before, Landing(before, p).value)
  {
    GrownKeepsLandings(before, after, [], Names(p), MAX_LINKS);
    if IsLink(before, p) {
      assert LandsInside(before, root, p);
    } else if Landing(after, p).Some? {
      LandsOnItselfIff(after, p);
    }
  }

  /** No file outside the workspaces of the frames changes, provided the links in those workspaces stay inside. */
  lemma FilesOutsideWorkspacesStay(cfg: Config, tree: Tree, sessions: map<SessionKey, Bytes>, labels: seq<Label>, q: Path)
    requires WellFormed(tree)
    requires
      var frames := Run(cfg, Initial(tree, sessions), labels).frames;
      forall i :: 0 <= i < |frames| ==> LinksStayInside(tree, frames[i].cx.root) && !(frames[i].cx.root <= q)
    ensures !Changed(tree, Run(cfg, Initial(tree, sessions), labels).tree, q)
  {
    var st := Run(cfg, Initial(tree, sessions), labels);
    InitialShape(tree, sessions);
    RunKeepsShape(cfg, Initial(tree, sessions), labels);
    ChangesAreAttributed(cfg, tree, sessions, labels);
    if Changed(tree, st.tree, q) {
      assert WrittenThrough(tree, st.log, q);
      var c: nat, p, content :| Effect(c, FsWriteAction(p, content)) in st.log && Landing(tree, p) == Some(q);
      EffectsFollow(cfg, tree, sessions, labels, c, FsWriteAction(p, content));
      assert CallOk(st.tree, st.frames, st.calls[c]);
      var root := st.frames[st.calls[c].frame].cx.root;
      assert LinksStayInside(tree, root) && !(root <= q);
      LandingOfTarget(tree, st.tree, root, p);
    }
  }

  /** Sessions change only under the workspace root of a frame of the run. */
  lemma SessionsStayInTheirWorkspace(
      cfg: Config, tree: Tree, sessions: map<SessionKey, Bytes>, labels: seq<Label>, key: SessionKey)
    requires WellFormed(tree)
    requires Changed(sessions, Run(cfg, Initial(tree, sessions), labels).sessions, key)
    ensures
      var frames := Run(cfg, Initial(tree, sessions), labels).frames;
      exists i :: 0 <= i < |frames| && frames[i].cx.root == key.workspaceRoot
  {
    var st := Run(cfg, Initial(tree, sessions), labels);
    InitialShape(tree, sessions);
    RunKeepsShape(cfg, Initial(tree, sessions), labels);
    ChangesAreAttributed(cfg, tree, sessions, labels);
    assert SavedBy(st.log, key);
    var c: nat, bytes :| Effect(c, SessionSaveAction(key, bytes)) in st.log;
    EffectsFollow(cfg, tree, sessions, labels, c, SessionSaveAction(key, bytes));
    assert CallOk(st.tree, st.frames, st.calls[c]);
  }

  /** The workspace policy never denies a parent action the facade asked for: resolution already checked the root. */
  lemma WorkspaceFsPolicyNeverDenies(
      cfg: Config, tree: Tree, sessions: map<SessionKey, Bytes>, labels: seq<Label>, c: nat, p: Path, record: GrantRecord)
    requires WellFormed(tree)
    requires Recorded(c, FsAction(p), record) in Run(cfg, Initial(tree, sessions), labels).log
    ensures
      var st := Run(cfg, Initial(tree, sessions), labels);
      && c < |st.calls| && st.calls[c].frame < |st.frames|
      && ALLOW_WORKSPACE_FS_POLICY.grant(st.frames[st.calls[c].frame].cx.PolicyView(), FsAction(p)).decision == Allow
  {
    var st := Run(cfg, Initial(tree, sessions), labels);
    var e := Recorded(c, FsAction(p), record);
    InitialShape(tree, sessions);
    RunKeepsShape(cfg, Initial(tree, sessions), labels);
    RunKeepsProtocol(cfg, tree, sessions, labels);
    assert CallFollows(cfg, st, c);
    assert CallOk(st.tree, st.frames, st.calls[c]);
    CallLogHas(st.log, e);
    EventOfCall(cfg, st.frames[st.calls[c].frame].cx, c, st.calls[c], CallLog(st.log, c), e);
  }

}
