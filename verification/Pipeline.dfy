/** The policy engine: three stages, an evaluation log, and exactly one grant record per request. */
module Pipeline {
  import opened Wrappers
  import opened Contract
  import opened Policies
  import opened Registry

  // ----- The decision as a value -----

  /** A registered policy together with the stage it is consulted in. */
  datatype Entry = Entry(stage: Stage, registered: Registered)

  function Staged(stage: Stage, deque: seq<Registered>): (entries: seq<Entry>)
    ensures |entries| == |deque|
  {
    seq(|deque|, i requires 0 <= i < |deque| => Entry(stage, deque[i]))
  }

  /** The policies an action of type `t` meets, in order. */
  function Entries(v: View, t: ActionType): seq<Entry> {
    Staged(Inbound, v.inbound) + (Staged(ActionStage, v.ActionPolicies(t)) + Staged(Outbound, v.outbound))
  }

  function Judge(e: Entry, ctx: PolicyContext, a: Action): PolicyGrant {
    e.registered.policy.grant(ctx, a)
  }

  /** An inbound policy can only stop an action; a later one settles it unless it abstains. */
  predicate Decisive(stage: Stage, decision: PolicyDecision) {
    decision == Deny || (decision == Allow && stage != Inbound)
  }

  predicate Decides(e: Entry, ctx: PolicyContext, a: Action) {
    Decisive(e.stage, Judge(e, ctx, a).decision)
  }

  function Evaluation(e: Entry, ctx: PolicyContext, a: Action): PolicyEvaluation {
    PolicyEvaluation(e.registered.policy.name, e.registered.id, e.stage, Judge(e, ctx, a))
  }

  const NO_MATCH := DeniedBy(NoMatchingPolicy, Some("No matching policy."))

  /** What one evaluation says once it is decisive. */
  function Verdict(e: PolicyEvaluation): PolicyOutcome {
    if e.grant.decision == Allow then AllowedBy(e.policyName, e.policyId, e.grant.reason)
    else DeniedBy(FromPolicy(e.policyName, e.policyId), e.grant.reason)
  }

  /** A report that continues after `evals`. */
  function Resume(evals: seq<PolicyEvaluation>, report: PolicyReport): PolicyReport {
    PolicyReport(evals + report.evaluations, report.outcome)
  }

  function Report(entries: seq<Entry>, ctx: PolicyContext, a: Action): PolicyReport {
    if entries == [] then PolicyReport([], NO_MATCH)
    else
      var evaluation := Evaluation(entries[0], ctx, a);
      if Decides(entries[0], ctx, a) then PolicyReport([evaluation], Verdict(evaluation))
      else Resume([evaluation], Report(entries[1..], ctx, a))
  }

  function Decide(v: View, ctx: PolicyContext, a: Action): PolicyReport {
    Report(Entries(v, TypeOf(a)), ctx, a)
  }

  predicate Allowed(v: View, ctx: PolicyContext, a: Action) {
    Decide(v, ctx, a).outcome.AllowedBy?
  }

  /** The record a grant request leaves; only an allow carries the next id. */
  function RecordFor(v: View, nextId: nat, ctx: PolicyContext, a: Action): GrantRecord {
    match Decide(v, ctx, a).outcome
    case AllowedBy(name, id, reason) =>
      GrantRecord(AllowGrant(nextId), AuditKind(a), Resource(a), FromPolicy(name, id), reason)
    case DeniedBy(source, reason) =>
      var default := if source.FromPolicy? then "policy denied action" else "No matching policy.";
      GrantRecord(DenyGrant, AuditKind(a), Resource(a), source, if reason.Some? then reason else Some(default))
  }

  function IdAfter(record: GrantRecord, nextId: nat): nat {
    if record.decision.AllowGrant? then NextId(nextId) else nextId
  }

  datatype Granted = Granted(record: GrantRecord, action: Action)

  function DenyError(record: GrantRecord): AuthorizationError {
    Denied(if record.reason.Some? then record.reason.value else "policy denied action", Some(record))
  }

  function GrantResult(record: GrantRecord, a: Action): Result<Granted, AuthorizationError> {
    if record.decision.AllowGrant? then Ok(Granted(record, a)) else Err(DenyError(record))
  }

  // ----- The engine itself -----

  datatype AuditedEvaluation = AuditedEvaluation(actionKind: string, resource: AuditResource, evaluation: PolicyEvaluation)

  function Audited(a: Action, evals: seq<PolicyEvaluation>): seq<AuditedEvaluation> {
    if evals == [] then []
    else
      Audited(a, evals[..|evals| - 1]) + [AuditedEvaluation(AuditKind(a), Resource(a), evals[|evals| - 1])]
  }

  class AuditLog {
    var evaluations: seq<AuditedEvaluation>
    var grants: seq<GrantRecord>

    constructor ()
      ensures evaluations == [] && grants == []
    {
      evaluations, grants := [], [];
    }
  }

  /** The process-wide 64-bit grant counter. */
  class GrantCounter {
    var next: nat

    constructor ()
      ensures next == 1
    {
      next := 1;
    }

    method NextGrantId() returns (id: nat)
      modifies this
      ensures id == old(next) && next == NextId(id)
    {
      id := next;
      next := NextId(next);
    }
  }

  class PolicyPipeline {
    const registry: PolicyRegistry

    constructor ()
      ensures fresh(registry) && registry.Contents() == EMPTY_VIEW
    {
      registry := new PolicyRegistry();
    }

    method Prepend(t: ActionType, policy: Policy)
      modifies registry
      ensures registry.Contents() == Register(old(registry.Contents()), Registration(true, ActionSlot(t), policy))
    {
      registry.PrependAction(t, policy);
    }

    method Append(t: ActionType, policy: Policy)
      modifies registry
      ensures registry.Contents() == Register(old(registry.Contents()), Registration(false, ActionSlot(t), policy))
    {
      registry.AppendAction(t, policy);
    }

    method PrependInbound(policy: Policy)
      modifies registry
      ensures registry.Contents() == Register(old(registry.Contents()), Registration(true, InboundSlot, policy))
    {
      registry.PrependInbound(policy);
    }

    method AppendInbound(policy: Policy)
      modifies registry
      ensures registry.Contents() == Register(old(registry.Contents()), Registration(false, InboundSlot, policy))
    {
      registry.AppendInbound(policy);
    }

    method PrependOutbound(policy: Policy)
      modifies registry
      ensures registry.Contents() == Register(old(registry.Contents()), Registration(true, OutboundSlot, policy))
    {
      registry.PrependOutbound(policy);
    }

    method AppendOutbound(policy: Policy)
      modifies registry
      ensures registry.Contents() == Register(old(registry.Contents()), Registration(false, OutboundSlot, policy))
    {
      registry.AppendOutbound(policy);
    }

    method DecideAction(ctx: PolicyContext, a: Action, audit: AuditLog) returns (report: PolicyReport)
      modifies audit`evaluations
      ensures report == Decide(registry.Contents(), ctx, a)
      ensures audit.evaluations == old(audit.evaluations) + Audited(a, report.evaluations)
    {
      var evaluations: seq<PolicyEvaluation> := [];
      ghost var logged, goal := audit.evaluations, Decide(registry.Contents(), ctx, a);
      var inbound, outbound := registry.globalPoliciesInbound, registry.globalPoliciesOutbound;
      var typed := if TypeOf(a) in registry.policyEntries then registry.policyEntries[TypeOf(a)] else [];
      ghost var last := Staged(Outbound, outbound);
      ghost var later := Staged(ActionStage, typed) + last;

      NothingYet(Inbound, inbound, later, ctx, a);
      for i := 0 to |inbound|
        invariant goal == Resume(evaluations, Rest(Inbound, inbound, i, later, ctx, a))
        invariant audit.evaluations == logged + Audited(a, evaluations)
      {
        var grant;
        grant, evaluations := Consult(Inbound, inbound, i, later, ctx, a, audit, evaluations, logged);
        if grant.decision == Deny {
          return PolicyReport(evaluations, DeniedBy(FromPolicy(inbound[i].policy.name, inbound[i].id), grant.reason));
        }
      }

      StageOver(Inbound, inbound, ActionStage, typed, last, ctx, a);
      for i := 0 to |typed|
        invariant goal == Resume(evaluations, Rest(ActionStage, typed, i, last, ctx, a))
        invariant audit.evaluations == logged + Audited(a, evaluations)
      {
        var grant;
        grant, evaluations := Consult(ActionStage, typed, i, last, ctx, a, audit, evaluations, logged);
        match grant.decision {
          case Allow =>
            return PolicyReport(evaluations, AllowedBy(typed[i].policy.name, typed[i].id, grant.reason));
          case Deny =>
            return PolicyReport(evaluations, DeniedBy(FromPolicy(typed[i].policy.name, typed[i].id), grant.reason));
          case Abstain =>
        }
      }

      assert last + [] == last;
      StageOver(ActionStage, typed, Outbound, outbound, [], ctx, a);
      for i := 0 to |outbound|
        invariant goal == Resume(evaluations, Rest(Outbound, outbound, i, [], ctx, a))
        invariant audit.evaluations == logged + Audited(a, evaluations)
      {
        var grant;
        grant, evaluations := Consult(Outbound, outbound, i, [], ctx, a, audit, evaluations, logged);
        match grant.decision {
          case Allow =>
            return PolicyReport(evaluations, AllowedBy(outbound[i].policy.name, outbound[i].id, grant.reason));
          case Deny =>
            return PolicyReport(evaluations, DeniedBy(FromPolicy(outbound[i].policy.name, outbound[i].id), grant.reason));
          case Abstain =>
        }
      }

      assert evaluations + [] == evaluations;
      return PolicyReport(evaluations, DeniedBy(NoMatchingPolicy, Some("No matching policy.")));
    }

    /** The common start of each round: ask the policy, audit its answer, extend the log. */
    static method Consult(
        stage: Stage, deque: seq<Registered>, i: nat, ghost later: seq<Entry>, ctx: PolicyContext, a: Action,
        audit: AuditLog, evaluations: seq<PolicyEvaluation>, ghost logged: seq<AuditedEvaluation>)
      returns (grant: PolicyGrant, more: seq<PolicyEvaluation>)
      requires i < |deque| && audit.evaluations == logged + Audited(a, evaluations)
      modifies audit`evaluations
      ensures audit.evaluations == logged + Audited(a, more)
      ensures
        var evaluation := PolicyEvaluation(deque[i].policy.name, deque[i].id, stage, grant);
        Resume(evaluations, Rest(stage, deque, i, later, ctx, a)) ==
        if Decisive(stage, grant.decision) then PolicyReport(more, Verdict(evaluation))
        else Resume(more, Rest(stage, deque, i + 1, later, ctx, a))
    {
      grant := deque[i].policy.grant(ctx, a);
      var evaluation := PolicyEvaluation(deque[i].policy.name, deque[i].id, stage, grant);
      audit.evaluations := audit.evaluations + [AuditedEvaluation(AuditKind(a), Resource(a), evaluation)];
      more := evaluations + [evaluation];
      assert more[..|evaluations|] == evaluations;
      OneRound(stage, deque, i, later, ctx, a);
      var rest := Rest(stage, deque, i + 1, later, ctx, a).evaluations;
      assert evaluations + ([evaluation] + rest) == more + rest;
    }

    method Grant(ctx: PolicyContext, a: Action, counter: GrantCounter, audit: AuditLog)
      returns (r: Result<Granted, AuthorizationError>)
      modifies counter, audit
      ensures
        var record := RecordFor(registry.Contents(), old(counter.next), ctx, a);
        && r == GrantResult(record, a)
        && counter.next == IdAfter(record, old(counter.next))
        && audit.grants == old(audit.grants) + [record]
        && audit.evaluations == old(audit.evaluations) + Audited(a, Decide(registry.Contents(), ctx, a).evaluations)
    {
      var report := DecideAction(ctx, a, audit);
      var record: GrantRecord;
      match report.outcome {
        case AllowedBy(name, id, reason) =>
          var grantId := counter.NextGrantId();
          record := GrantRecord(AllowGrant(grantId), AuditKind(a), Resource(a), FromPolicy(name, id), reason);
          r := Ok(Granted(record, a));
        case DeniedBy(FromPolicy(name, id), reason) =>
          var why := if reason.Some? then reason else Some("policy denied action");
          record := GrantRecord(DenyGrant, AuditKind(a), Resource(a), FromPolicy(name, id), why);
          r := Err(DenyError(record));
        case DeniedBy(NoMatchingPolicy, reason) =>
          var why := if reason.Some? then reason else Some("No matching policy.");
          record := GrantRecord(DenyGrant, AuditKind(a), Resource(a), NoMatchingPolicy, why);
          r := Err(DenyError(record));
      }
      audit.grants := audit.grants + [record];
    }
  }

  // ----- Loop bookkeeping -----

  /** The report of what is left of one stage from its `i`-th policy, and of the stages after it. */
  function Rest(stage: Stage, deque: seq<Registered>, i: nat, later: seq<Entry>, ctx: PolicyContext, a: Action): PolicyReport
    requires i <= |deque|
  {
    Report(Staged(stage, deque[i..]) + later, ctx, a)
  }

  lemma NothingYet(stage: Stage, deque: seq<Registered>, later: seq<Entry>, ctx: PolicyContext, a: Action)
    ensures Report(Staged(stage, deque) + later, ctx, a) == Resume([], Rest(stage, deque, 0, later, ctx, a))
  {
    assert deque[0..] == deque;
    var report := Report(Staged(stage, deque) + later, ctx, a);
    assert [] + report.evaluations == report.evaluations;
  }

  lemma StageOver(
      stage: Stage, deque: seq<Registered>, next: Stage, deque': seq<Registered>, later: seq<Entry>,
      ctx: PolicyContext, a: Action)
    ensures Rest(stage, deque, |deque|, Staged(next, deque') + later, ctx, a) == Rest(next, deque', 0, later, ctx, a)
  {
    assert deque'[0..] == deque';
    assert Staged(stage, deque[|deque|..]) + (Staged(next, deque') + later) == Staged(next, deque') + later;
  }

  lemma OneRound(stage: Stage, deque: seq<Registered>, i: nat, later: seq<Entry>, ctx: PolicyContext, a: Action)
    requires i < |deque|
    ensures
      var evaluation := Evaluation(Entry(stage, deque[i]), ctx, a);
      Rest(stage, deque, i, later, ctx, a) ==
      if Decides(Entry(stage, deque[i]), ctx, a) then PolicyReport([evaluation], Verdict(evaluation))
      else Resume([evaluation], Rest(stage, deque, i + 1, later, ctx, a))
  {
    var entries := Staged(stage, deque[i..]) + later;
    assert deque[i..] == [deque[i]] + deque[i + 1..];
    assert entries[0] == Entry(stage, deque[i]);
    assert entries[1..] == Staged(stage, deque[i + 1..]) + later;
  }
}
