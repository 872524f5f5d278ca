/** What the pipeline's decisions mean, for every registry, context and action. */
module PipelineProofs {
  import opened Wrappers
  import opened CapabilitySet
  import opened Contract
  import opened Policies
  import opened Registry
  import opened Pipeline

  // ----- What a report means -----

  function FirstDecisive(entries: seq<Entry>, ctx: PolicyContext, a: Action): (k: nat)
    ensures k <= |entries|
    ensures forall i :: 0 <= i < k ==> !Decides(entries[i], ctx, a)
    ensures k < |entries| ==> Decides(entries[k], ctx, a)
  {
    if entries == [] || Decides(entries[0], ctx, a) then 0 else 1 + FirstDecisive(entries[1..], ctx, a)
  }

  function Evaluations(entries: seq<Entry>, ctx: PolicyContext, a: Action): (evals: seq<PolicyEvaluation>)
    ensures |evals| == |entries|
  {
    seq(|entries|, i requires 0 <= i < |entries| => Evaluation(entries[i], ctx, a))
  }

  lemma EvaluationsOfPrefix(entries: seq<Entry>, n: nat, ctx: PolicyContext, a: Action)
    requires n < |entries|
    ensures Evaluations(entries[..n + 1], ctx, a) ==
            [Evaluation(entries[0], ctx, a)] + Evaluations(entries[1..][..n], ctx, a)
  {
  }

  /** Every entry up to the first decisive one is evaluated; without one, all are and the answer is a denial. */
  function FirstDecisiveReport(entries: seq<Entry>, ctx: PolicyContext, a: Action): PolicyReport {
    var k := FirstDecisive(entries, ctx, a);
    if k < |entries| then PolicyReport(Evaluations(entries[..k + 1], ctx, a), Verdict(Evaluation(entries[k], ctx, a)))
    else PolicyReport(Evaluations(entries, ctx, a), NO_MATCH)
  }

  lemma FirstDecisiveStep(entries: seq<Entry>, ctx: PolicyContext, a: Action)
    requires entries != [] && !Decides(entries[0], ctx, a)
    ensures FirstDecisiveReport(entries, ctx, a) ==
            Resume([Evaluation(entries[0], ctx, a)], FirstDecisiveReport(entries[1..], ctx, a))
  {
    var tail := entries[1..];
    var k := FirstDecisive(tail, ctx, a);
    if k < |tail| {
      EvaluationsOfPrefix(entries, k + 1, ctx, a);
    } else {
      EvaluationsOfPrefix(entries, |tail|, ctx, a);
      assert entries[..|tail| + 1] == entries && tail[..|tail|] == tail;
    }
  }

  /**
   * The evaluations are exactly the entries up to the first decisive one, that one gives the outcome,
   * and without one every entry is evaluated and the answer is a denial.
   */
  lemma {:induction false} ReportIsFirstDecisive(entries: seq<Entry>, ctx: PolicyContext, a: Action)
    ensures Report(entries, ctx, a) == FirstDecisiveReport(entries, ctx, a)
  {
    if entries != [] {
      if Decides(entries[0], ctx, a) {
        EvaluationsOfPrefix(entries, 0, ctx, a);
      } else {
        ReportIsFirstDecisive(entries[1..], ctx, a);
        FirstDecisiveStep(entries, ctx, a);
      }
    }
  }

  /** Reading the last evaluation is enough to know the outcome. */
  function Recompute(evals: seq<PolicyEvaluation>): PolicyOutcome {
    if evals == [] then NO_MATCH
    else
      var last := evals[|evals| - 1];
      if Decisive(last.stage, last.grant.decision) then Verdict(last) else NO_MATCH
  }

  lemma {:induction false} OutcomeFromEvaluations(entries: seq<Entry>, ctx: PolicyContext, a: Action)
    ensures Recompute(Report(entries, ctx, a).evaluations) == Report(entries, ctx, a).outcome
  {
    if entries != [] {
      OutcomeFromEvaluations(entries[1..], ctx, a);
    }
  }

  /** What makes a policy settle an action: inbound only a denial, later anything but an abstention. */
  ghost predicate Speaks(e: Entry, ctx: PolicyContext, a: Action) {
    var decision := e.registered.policy.grant(ctx, a).decision;
    if e.stage == Inbound then decision == Deny else decision != Abstain
  }

  /** Entry `k` is the first that settles the action. */
  ghost predicate FirstToSpeak(entries: seq<Entry>, ctx: PolicyContext, a: Action, k: nat) {
    && k < |entries| && Speaks(entries[k], ctx, a)
    && forall i :: 0 <= i < k ==> !Speaks(entries[i], ctx, a)
  }

  lemma SpeakerIsFirstDecisive(entries: seq<Entry>, ctx: PolicyContext, a: Action, k: nat)
    requires FirstToSpeak(entries, ctx, a, k)
    ensures FirstDecisive(entries, ctx, a) == k
  {
    assert forall i :: 0 <= i < |entries| ==> (Decides(entries[i], ctx, a) <==> Speaks(entries[i], ctx, a));
  }

  /** The outcome carries the first speaker's own name, its registered id and its own reason. */
  lemma OutcomeIsFirstSpeakers(v: View, ctx: PolicyContext, a: Action, k: nat)
    requires FirstToSpeak(Entries(v, TypeOf(a)), ctx, a, k)
    ensures
      var speaker := Entries(v, TypeOf(a))[k].registered;
      var said := speaker.policy.grant(ctx, a);
      Decide(v, ctx, a).outcome ==
      if said.decision == Allow then AllowedBy(speaker.policy.name, speaker.id, said.reason)
      else DeniedBy(FromPolicy(speaker.policy.name, speaker.id), said.reason)
  {
    SpeakerIsFirstDecisive(Entries(v, TypeOf(a)), ctx, a, k);
    ReportIsFirstDecisive(Entries(v, TypeOf(a)), ctx, a);
  }

  /** When nobody speaks the action is denied for want of a policy. */
  lemma SilenceDenies(v: View, ctx: PolicyContext, a: Action)
    requires forall e :: e in Entries(v, TypeOf(a)) ==> !Speaks(e, ctx, a)
    ensures Decide(v, ctx, a).outcome == DeniedBy(NoMatchingPolicy, Some("No matching policy."))
  {
    var entries := Entries(v, TypeOf(a));
    ReportIsFirstDecisive(entries, ctx, a);
    assert forall i :: 0 <= i < |entries| ==> !Speaks(entries[i], ctx, a);
  }

  /**
   * The grant record names the first speaker and its reason, and a refusal hands back that very record;
   * a denial without a reason gets the standing one.
   */
  lemma RecordNamesFirstSpeaker(v: View, nextId: nat, ctx: PolicyContext, a: Action, k: nat)
    requires FirstToSpeak(Entries(v, TypeOf(a)), ctx, a, k)
    ensures
      var speaker := Entries(v, TypeOf(a))[k].registered;
      var said := speaker.policy.grant(ctx, a);
      var source, record := FromPolicy(speaker.policy.name, speaker.id), RecordFor(v, nextId, ctx, a);
      if said.decision == Allow then
        && record == GrantRecord(AllowGrant(nextId), AuditKind(a), Resource(a), source, said.reason)
        && GrantResult(record, a) == Ok(Granted(record, a))
      else
        var reason := if said.reason.Some? then said.reason.value else "policy denied action";
        && record == GrantRecord(DenyGrant, AuditKind(a), Resource(a), source, Some(reason))
        && GrantResult(record, a) == Err(Denied(reason, Some(record)))
  {
    OutcomeIsFirstSpeakers(v, ctx, a, k);
  }

  // ----- Stages -----

  ghost predicate Settles(entries: seq<Entry>, ctx: PolicyContext, a: Action) {
    exists i :: 0 <= i < |entries| && Decides(entries[i], ctx, a)
  }

  lemma SettlesCons(entries: seq<Entry>, ctx: PolicyContext, a: Action)
    requires entries != []
    ensures Settles(entries, ctx, a) <==> Decides(entries[0], ctx, a) || Settles(entries[1..], ctx, a)
  {
    if Settles(entries, ctx, a) {
      var i :| 0 <= i < |entries| && Decides(entries[i], ctx, a);
      assert i > 0 ==> entries[1..][i - 1] == entries[i];
    }
    if Settles(entries[1..], ctx, a) {
      var i :| 0 <= i < |entries[1..]| && Decides(entries[1..][i], ctx, a);
      assert entries[i + 1] == entries[1..][i];
    }
  }

  /** Earlier stages settle the outcome or leave it entirely to the later ones. */
  lemma {:induction false} OutcomeOfStages(xs: seq<Entry>, ys: seq<Entry>, ctx: PolicyContext, a: Action)
    ensures Report(xs + ys, ctx, a).outcome ==
            if Settles(xs, ctx, a) then Report(xs, ctx, a).outcome else Report(ys, ctx, a).outcome
  {
    if xs == [] {
      assert xs + ys == ys;
    } else {
      assert (xs + ys)[1..] == xs[1..] + ys;
      SettlesCons(xs, ctx, a);
      OutcomeOfStages(xs[1..], ys, ctx, a);
    }
  }

  ghost predicate Denies(p: Policy, ctx: PolicyContext, a: Action) {
    p.grant(ctx, a).decision == Deny
  }

  ghost predicate NoDeny(deque: seq<Registered>, ctx: PolicyContext, a: Action) {
    forall r :: r in deque ==> !Denies(r.policy, ctx, a)
  }

  lemma {:induction false} InboundOnlyDenies(deque: seq<Registered>, ctx: PolicyContext, a: Action)
    ensures Settles(Staged(Inbound, deque), ctx, a) <==> !NoDeny(deque, ctx, a)
    ensures Report(Staged(Inbound, deque), ctx, a).outcome.DeniedBy?
  {
    if deque != [] {
      var entries := Staged(Inbound, deque);
      assert entries[1..] == Staged(Inbound, deque[1..]);
      assert deque == [deque[0]] + deque[1..];
      SettlesCons(entries, ctx, a);
      InboundOnlyDenies(deque[1..], ctx, a);
    }
  }

  /** The typed and outbound stages alone. */
  function LaterOutcome(v: View, ctx: PolicyContext, a: Action): PolicyOutcome {
    Report(Staged(ActionStage, v.ActionPolicies(TypeOf(a))) + Staged(Outbound, v.outbound), ctx, a).outcome
  }

  /** Inbound policies are a gate: without a denial there the later stages alone give the outcome. */
  lemma InboundIsGate(v: View, ctx: PolicyContext, a: Action)
    ensures NoDeny(v.inbound, ctx, a) ==> Decide(v, ctx, a).outcome == LaterOutcome(v, ctx, a)
    ensures Allowed(v, ctx, a) <==> NoDeny(v.inbound, ctx, a) && LaterOutcome(v, ctx, a).AllowedBy?
  {
    InboundOnlyDenies(v.inbound, ctx, a);
    OutcomeOfStages(Staged(Inbound, v.inbound),
      Staged(ActionStage, v.ActionPolicies(TypeOf(a))) + Staged(Outbound, v.outbound), ctx, a);
  }

  // ----- The capability envelope -----

  ghost predicate IsEnvelope(p: Policy) {
    forall ctx, a :: p.grant(ctx, a) == EnvelopeGrant(ctx, a)
  }

  ghost predicate Enveloped(v: View) {
    exists r :: r in v.inbound && IsEnvelope(r.policy)
  }

  /** The slots each kind of action takes: none for the parent and the session actions. */
  ghost predicate HoldsFor(caps: Capabilities, a: Action) {
    match a
    case FsReadAction(_) => Contains(caps, Bit(CapFsRead))
    case FsWriteAction(_, _) => Contains(caps, Bit(CapFsWrite))
    case NetworkFetchAction(_) => Contains(caps, Bit(NetworkFetch))
    case OtherAction(_, needed, _) => Contains(caps, needed)
    case _ => true
  }

  /** Those are the capabilities the actions declare. */
  lemma HoldsForIsRequired(caps: Capabilities, a: Action)
    ensures HoldsFor(caps, a) <==> Contains(caps, Required(a))
  {
    ContainsReflexive(caps);
  }

  /** With the envelope inbound, nothing is allowed beyond the context's capabilities. */
  lemma AllowedIsWithinEnvelope(v: View, ctx: PolicyContext, a: Action)
    requires Enveloped(v) && Allowed(v, ctx, a)
    ensures Contains(ctx.capabilities, Required(a)) && HoldsFor(ctx.capabilities, a)
  {
    InboundIsGate(v, ctx, a);
    var r :| r in v.inbound && IsEnvelope(r.policy);
    assert !Denies(r.policy, ctx, a);
    assert r.policy.grant(ctx, a) == EnvelopeGrant(ctx, a);
  }

  /** No registration removes the envelope. */
  lemma {:induction false} EnvelopeStays(v: View, rs: seq<Registration>)
    requires Enveloped(v)
    ensures Enveloped(RegisterAll(v, rs))
  {
    if rs != [] {
      var before, last := rs[..|rs| - 1], rs[|rs| - 1];
      EnvelopeStays(v, before);
      var w := RegisterAll(v, before);
      var r :| r in w.inbound && IsEnvelope(r.policy);
      DequeAfter(w, last, InboundSlot);
      assert r in Register(w, last).inbound;
    }
  }

  ghost predicate CapabilityBlind(p: Policy) {
    forall ctx: PolicyContext, ctx': PolicyContext, a ::
      ctx.workspaceRoot == ctx'.workspaceRoot ==> p.grant(ctx, a) == p.grant(ctx', a)
  }

  ghost predicate EnvelopeOrBlind(p: Policy) {
    IsEnvelope(p) || CapabilityBlind(p)
  }

  /** Only envelope policies look at capabilities. */
  ghost predicate OnlyEnvelopeReadsCapabilities(v: View) {
    forall slot, r :: r in v.Deque(slot) ==> EnvelopeOrBlind(r.policy)
  }

  ghost predicate Widens(ctx: PolicyContext, ctx': PolicyContext) {
    ctx.workspaceRoot == ctx'.workspaceRoot && Contains(ctx'.capabilities, ctx.capabilities)
  }

  lemma SameJudgement(e: Entry, ctx: PolicyContext, ctx': PolicyContext, a: Action)
    requires EnvelopeOrBlind(e.registered.policy) && Widens(ctx, ctx')
    requires Judge(e, ctx, a).decision != Deny
    ensures Judge(e, ctx', a) == Judge(e, ctx, a)
  {
    var p := e.registered.policy;
    if IsEnvelope(p) {
      assert p.grant(ctx, a) == EnvelopeGrant(ctx, a);
      assert p.grant(ctx', a) == EnvelopeGrant(ctx', a);
      ContainsTransitive(ctx'.capabilities, ctx.capabilities, Required(a));
    } else {
      assert p.grant(ctx, a) == p.grant(ctx', a);
    }
  }

  lemma {:induction false} WiderReport(entries: seq<Entry>, ctx: PolicyContext, ctx': PolicyContext, a: Action)
    requires forall e :: e in entries ==> EnvelopeOrBlind(e.registered.policy)
    requires Widens(ctx, ctx') && Report(entries, ctx, a).outcome.AllowedBy?
    ensures Report(entries, ctx', a) == Report(entries, ctx, a)
  {
    if entries != [] {
      SameJudgement(entries[0], ctx, ctx', a);
      if !Decides(entries[0], ctx, a) {
        WiderReport(entries[1..], ctx, ctx', a);
      }
    }
  }

  /** Enlarging the effective capabilities leaves every allowed decision exactly as it was. */
  lemma WiderCapabilitiesKeepAllows(v: View, ctx: PolicyContext, ctx': PolicyContext, a: Action)
    requires OnlyEnvelopeReadsCapabilities(v) && Widens(ctx, ctx') && Allowed(v, ctx, a)
    ensures Decide(v, ctx', a) == Decide(v, ctx, a)
  {
    var t := TypeOf(a);
    forall e | e in Entries(v, t)
      ensures EnvelopeOrBlind(e.registered.policy)
    {
      var r := e.registered;
      assert r in v.Deque(InboundSlot) || r in v.Deque(ActionSlot(t)) || r in v.Deque(OutboundSlot);
    }
    WiderReport(Entries(v, t), ctx, ctx', a);
  }

  // ----- Moving a policy between stages -----

  lemma {:induction false} OutcomeWithOne(xs: seq<Entry>, e: Entry, ys: seq<Entry>, ctx: PolicyContext, a: Action)
    ensures Report(xs + ([e] + ys), ctx, a).outcome ==
            if Settles(xs, ctx, a) then Report(xs, ctx, a).outcome
            else if Decides(e, ctx, a) then Verdict(Evaluation(e, ctx, a))
            else Report(ys, ctx, a).outcome
  {
    OutcomeOfStages(xs, [e] + ys, ctx, a);
    assert ([e] + ys)[1..] == ys;
  }

  lemma WrapperGrant(t: ActionType, p: Policy, ctx: PolicyContext, a: Action)
    ensures PolicyAnyWrapper(t, p).name == p.name
    ensures PolicyAnyWrapper(t, p).grant(ctx, a) ==
            if TypeOf(a) == t then p.grant(ctx, a) else AbstainFor("policy does not apply to this action type")
  {
  }

  lemma TypedAppended(v: View, t: ActionType, p: Policy, ctx: PolicyContext, a: Action)
    ensures
      var u, e := TypeOf(a), Entry(ActionStage, Registered(v.nextPolicyId, p));
      var earlier := Staged(Inbound, v.inbound) + Staged(ActionStage, v.ActionPolicies(u));
      var last := Staged(Outbound, v.outbound);
      Decide(Register(v, Registration(false, ActionSlot(t), p)), ctx, a).outcome ==
      Report(earlier + ((if u == t then [e] else []) + last), ctx, a).outcome
  {
    var u, e := TypeOf(a), Entry(ActionStage, Registered(v.nextPolicyId, p));
    var typed := Register(v, Registration(false, ActionSlot(t), p));
    var gate, own := Staged(Inbound, v.inbound), Staged(ActionStage, v.ActionPolicies(u));
    var last := Staged(Outbound, v.outbound);
    var added := if u == t then [e] else [];
    assert Staged(ActionStage, typed.ActionPolicies(u)) == own + added;
    assert gate + ((own + added) + last) == (gate + own) + (added + last);
  }

  lemma WrappedPrepended(v: View, p: Policy, ctx: PolicyContext, a: Action)
    ensures
      var e := Entry(Outbound, Registered(v.nextPolicyId, p));
      var earlier := Staged(Inbound, v.inbound) + Staged(ActionStage, v.ActionPolicies(TypeOf(a)));
      Decide(Register(v, Registration(true, OutboundSlot, p)), ctx, a) ==
      Report(earlier + ([e] + Staged(Outbound, v.outbound)), ctx, a)
  {
    var e := Entry(Outbound, Registered(v.nextPolicyId, p));
    var wrapped := Register(v, Registration(true, OutboundSlot, p));
    var gate, own := Staged(Inbound, v.inbound), Staged(ActionStage, v.ActionPolicies(TypeOf(a)));
    assert Staged(Outbound, wrapped.outbound) == [e] + Staged(Outbound, v.outbound);
    assert gate + (own + ([e] + Staged(Outbound, v.outbound))) == (gate + own) + ([e] + Staged(Outbound, v.outbound));
  }

  /**
   * A typed policy appended to its own stage, or prepended wrapped to the outbound stage,
   * gives every action of every type the same outcome, decider and id.
   */
  lemma TypedEqualsWrappedOutbound(v: View, t: ActionType, p: Policy, ctx: PolicyContext, a: Action)
    ensures
      Decide(Register(v, Registration(false, ActionSlot(t), p)), ctx, a).outcome ==
      Decide(Register(v, Registration(true, OutboundSlot, PolicyAnyWrapper(t, p))), ctx, a).outcome
  {
    var earlier := Staged(Inbound, v.inbound) + Staged(ActionStage, v.ActionPolicies(TypeOf(a)));
    var last := Staged(Outbound, v.outbound);
    var e := Entry(ActionStage, Registered(v.nextPolicyId, p));
    var w := Entry(Outbound, Registered(v.nextPolicyId, PolicyAnyWrapper(t, p)));
    TypedAppended(v, t, p, ctx, a);
    WrappedPrepended(v, PolicyAnyWrapper(t, p), ctx, a);
    WrapperGrant(t, p, ctx, a);
    OutcomeWithOne(earlier, w, last, ctx, a);
    if TypeOf(a) == t {
      OutcomeWithOne(earlier, e, last, ctx, a);
    } else {
      assert [] + last == last;
      OutcomeOfStages(earlier, last, ctx, a);
    }
  }

  /** Placed inbound the same policy can only remove allows, and removes exactly those it denies. */
  lemma WrappedInboundOnlyRemoves(v: View, front: bool, t: ActionType, p: Policy, ctx: PolicyContext, a: Action)
    ensures
      var after := Register(v, Registration(front, InboundSlot, PolicyAnyWrapper(t, p)));
      Allowed(after, ctx, a) <==> Allowed(v, ctx, a) && !(TypeOf(a) == t && Denies(p, ctx, a))
  {
    var w := Registered(v.nextPolicyId, PolicyAnyWrapper(t, p));
    var after := Register(v, Registration(front, InboundSlot, PolicyAnyWrapper(t, p)));
    InboundIsGate(v, ctx, a);
    InboundIsGate(after, ctx, a);
    assert forall r :: r in after.inbound <==> r == w || r in v.inbound;
    WrapperGrant(t, p, ctx, a);
  }

  // ----- Order independence -----

  /** Permuting the inbound policies never changes whether an action is allowed. */
  lemma InboundOrderIsIrrelevant(v: View, inbound: seq<Registered>, ctx: PolicyContext, a: Action)
    requires multiset(inbound) == multiset(v.inbound)
    ensures Allowed(v.(inbound := inbound), ctx, a) <==> Allowed(v, ctx, a)
  {
    InboundIsGate(v, ctx, a);
    InboundIsGate(v.(inbound := inbound), ctx, a);
    forall r
      ensures r in inbound <==> r in v.inbound
    {
      assert r in multiset(inbound) <==> r in multiset(v.inbound);
    }
  }

  ghost predicate Allows(p: Policy, ctx: PolicyContext, a: Action) {
    p.grant(ctx, a).decision == Allow
  }

  lemma {:induction false} FirstAllowWins(stage: Stage, deque: seq<Registered>, ctx: PolicyContext, a: Action)
    requires stage != Inbound && NoDeny(deque, ctx, a)
    ensures Settles(Staged(stage, deque), ctx, a) <==> exists r :: r in deque && Allows(r.policy, ctx, a)
    ensures Settles(Staged(stage, deque), ctx, a) <==> Report(Staged(stage, deque), ctx, a).outcome.AllowedBy?
  {
    if deque != [] {
      var entries := Staged(stage, deque);
      assert entries[1..] == Staged(stage, deque[1..]);
      assert deque == [deque[0]] + deque[1..];
      SettlesCons(entries, ctx, a);
      FirstAllowWins(stage, deque[1..], ctx, a);
    }
  }

  lemma {:induction false} NoAllowNoAllow(stage: Stage, deque: seq<Registered>, ctx: PolicyContext, a: Action)
    requires forall r :: r in deque ==> !Allows(r.policy, ctx, a)
    ensures !Report(Staged(stage, deque), ctx, a).outcome.AllowedBy?
  {
    if deque != [] {
      assert Staged(stage, deque)[1..] == Staged(stage, deque[1..]);
      NoAllowNoAllow(stage, deque[1..], ctx, a);
    }
  }

  /** Typed policies that never deny allow the union of what each allows, in whatever order they stand. */
  lemma AllowedIsUnion(v: View, ctx: PolicyContext, a: Action)
    requires NoDeny(v.ActionPolicies(TypeOf(a)), ctx, a)
    requires forall r :: r in v.outbound ==> !Allows(r.policy, ctx, a)
    ensures Allowed(v, ctx, a) <==>
            && NoDeny(v.inbound, ctx, a)
            && exists r :: r in v.ActionPolicies(TypeOf(a)) && Allows(r.policy, ctx, a)
  {
    var own := v.ActionPolicies(TypeOf(a));
    InboundIsGate(v, ctx, a);
    FirstAllowWins(ActionStage, own, ctx, a);
    NoAllowNoAllow(Outbound, v.outbound, ctx, a);
    OutcomeOfStages(Staged(ActionStage, own), Staged(Outbound, v.outbound), ctx, a);
  }

  /** Where the envelope alone stands inbound and everything else is allowed, capabilities alone decide. */
  ghost predicate EnvelopeThenAllow(v: View, ctx: PolicyContext, a: Action) {
    && (exists gate: Registered :: v.inbound == [gate] && gate.policy == CAPABILITY_ENVELOPE_POLICY)
    && NoDeny(v.ActionPolicies(TypeOf(a)), ctx, a)
    && v.outbound != [] && (forall r :: r in v.outbound ==> Allows(r.policy, ctx, a))
  }

  lemma LaterStagesAllow(v: View, ctx: PolicyContext, a: Action)
    requires NoDeny(v.ActionPolicies(TypeOf(a)), ctx, a)
    requires v.outbound != [] && forall r :: r in v.outbound ==> Allows(r.policy, ctx, a)
    ensures LaterOutcome(v, ctx, a).AllowedBy?
  {
    var own := v.ActionPolicies(TypeOf(a));
    FirstAllowWins(ActionStage, own, ctx, a);
    FirstAllowWins(Outbound, v.outbound, ctx, a);
    assert v.outbound[0] in v.outbound;
    OutcomeOfStages(Staged(ActionStage, own), Staged(Outbound, v.outbound), ctx, a);
  }

  /**
   * Then a read is allowed exactly with FsRead, a write with FsWrite, a fetch with NetworkFetch,
   * and the parent and both session actions always.
   */
  lemma EnvelopeAloneDecides(v: View, ctx: PolicyContext, a: Action)
    requires EnvelopeThenAllow(v, ctx, a)
    ensures Allowed(v, ctx, a) <==> HoldsFor(ctx.capabilities, a)
  {
    var gate :| v.inbound == [gate] && gate.policy == CAPABILITY_ENVELOPE_POLICY;
    HoldsForIsRequired(ctx.capabilities, a);
    InboundIsGate(v, ctx, a);
    assert NoDeny(v.inbound, ctx, a) <==> EnvelopeGrant(ctx, a).decision != Deny;
    LaterStagesAllow(v, ctx, a);
  }

  /** The workspace policy for the parent action: under the root it allows, outside it denies. */
  lemma WorkspaceFsDecides(ctx: PolicyContext, p: Path)
    ensures ALLOW_WORKSPACE_FS_POLICY.grant(ctx, FsAction(p)).decision ==
            if ctx.workspaceRoot <= p then Allow else Deny
  {
  }

  /** Two actions are filed under one type exactly when they are of one kind. */
  lemma TypesTellKindsApart(a: Action, b: Action)
    ensures TypeOf(a) == TypeOf(b) <==>
            || (a.FsAction? && b.FsAction?) || (a.FsReadAction? && b.FsReadAction?)
            || (a.FsWriteAction? && b.FsWriteAction?) || (a.NetworkFetchAction? && b.NetworkFetchAction?)
            || (a.SessionLoadAction? && b.SessionLoadAction?) || (a.SessionSaveAction? && b.SessionSaveAction?)
            || (a.OtherAction? && b.OtherAction? && a.kind == b.kind)
  {
  }

  /** The exact, prefix and workspace rules for reads and writes. */
  datatype PathRule =
    | ExactRead(path: Path) | PrefixRead(path: Path) | WorkspaceRead
    | ExactWrite(path: Path) | PrefixWrite(path: Path) | WorkspaceWrite

  function PolicyOf(rule: PathRule): Policy {
    match rule
    case ExactRead(path) => ExactFileReadPolicy(path)
    case PrefixRead(path) => FileReadPrefixPolicy(path)
    case WorkspaceRead => WORKSPACE_READ_POLICY
    case ExactWrite(path) => ExactFileWritePolicy(path)
    case PrefixWrite(path) => FileWritePrefixPolicy(path)
    case WorkspaceWrite => WORKSPACE_WRITE_POLICY
  }

  ghost predicate Covers(rule: PathRule, root: Path, a: Action) {
    match rule
    case ExactRead(path) => a.FsReadAction? && a.path == path
    case PrefixRead(path) => a.FsReadAction? && path <= a.path
    case WorkspaceRead => a.FsReadAction? && root <= a.path
    case ExactWrite(path) => a.FsWriteAction? && a.path == path
    case PrefixWrite(path) => a.FsWriteAction? && path <= a.path
    case WorkspaceWrite => a.FsWriteAction? && root <= a.path
  }

  lemma ReadRuleGrant(rule: PathRule, ctx: PolicyContext, a: Action)
    requires rule.ExactRead? || rule.PrefixRead? || rule.WorkspaceRead?
    ensures PolicyOf(rule).grant(ctx, a).decision == if Covers(rule, ctx.workspaceRoot, a) then Allow else Abstain
  {
  }

  lemma WriteRuleGrant(rule: PathRule, ctx: PolicyContext, a: Action)
    requires rule.ExactWrite? || rule.PrefixWrite? || rule.WorkspaceWrite?
    ensures PolicyOf(rule).grant(ctx, a).decision == if Covers(rule, ctx.workspaceRoot, a) then Allow else Abstain
  {
  }

  lemma PathRuleGrant(rule: PathRule, ctx: PolicyContext, a: Action)
    ensures PolicyOf(rule).grant(ctx, a).decision == if Covers(rule, ctx.workspaceRoot, a) then Allow else Abstain
  {
    if rule.ExactRead? || rule.PrefixRead? || rule.WorkspaceRead? {
      ReadRuleGrant(rule, ctx, a);
    } else {
      WriteRuleGrant(rule, ctx, a);
    }
  }

  /** The deque registers the policies of `rules`, in some order. */
  ghost predicate Implements(own: seq<Registered>, rules: seq<PathRule>) {
    && |own| == |rules|
    && forall i :: 0 <= i < |own| ==> own[i].policy == PolicyOf(rules[i])
  }

  /** Any mix of path rules, in any registration order, allows exactly what one of them covers. */
  lemma PathPoliciesAllowTheirUnion(v: View, rules: seq<PathRule>, ctx: PolicyContext, a: Action)
    requires Implements(v.ActionPolicies(TypeOf(a)), rules)
    requires forall r :: r in v.outbound ==> !Allows(r.policy, ctx, a)
    ensures Allowed(v, ctx, a) <==>
            NoDeny(v.inbound, ctx, a) && exists rule :: rule in rules && Covers(rule, ctx.workspaceRoot, a)
  {
    var own := v.ActionPolicies(TypeOf(a));
    forall i | 0 <= i < |own|
      ensures !Denies(own[i].policy, ctx, a)
      ensures Allows(own[i].policy, ctx, a) <==> Covers(rules[i], ctx.workspaceRoot, a)
    {
      PathRuleGrant(rules[i], ctx, a);
    }
    AllowedIsUnion(v, ctx, a);
    if exists rule :: rule in rules && Covers(rule, ctx.workspaceRoot, a) {
      var i :| 0 <= i < |rules| && Covers(rules[i], ctx.workspaceRoot, a);
      assert own[i] in own && Allows(own[i].policy, ctx, a);
    }
  }
}
