/** Shared data of the authorization path: decisions, reports, grant records and errors. */
module Contract {
  import opened Wrappers
  import opened CapabilitySet

  /** An absolute path as its components from the filesystem root. */
  type Path = seq<string>

  /** A write or session store keeps text and bytes as they come. */
  type Bytes = seq<bv8>

  datatype OutputClassification = Public | WorkspaceLocal | Sensitive

  datatype AuditResource =
    | PathResource(path: Path)
    | ValueResource(value: string)

  datatype PolicyDecision = Allow | Deny | Abstain

  datatype PolicyGrant = PolicyGrant(decision: PolicyDecision, reason: Option<string>)

  datatype Stage = Inbound | ActionStage | Outbound

  datatype PolicyEvaluation = PolicyEvaluation(policyName: string, policyId: nat, stage: Stage, grant: PolicyGrant)

  datatype GrantSource =
    | FromPolicy(policyName: string, policyId: nat)
    | NoMatchingPolicy

  datatype PolicyOutcome =
    | AllowedBy(policyName: string, policyId: nat, reason: Option<string>)
    | DeniedBy(source: GrantSource, reason: Option<string>)

  datatype PolicyReport = PolicyReport(evaluations: seq<PolicyEvaluation>, outcome: PolicyOutcome)

  datatype GrantDecision = AllowGrant(id: nat) | DenyGrant

  datatype GrantRecord = GrantRecord(
    decision: GrantDecision,
    actionKind: string,
    resource: AuditResource,
    source: GrantSource,
    reason: Option<string>)

  datatype AuthorizationError =
    | Denied(reason: string, record: Option<GrantRecord>)
    | OutsideWorkspace
    | Io

  /** The number of values of the 64-bit grant counter, which wraps. */
  const U64_VALUES: nat := 0x1_0000_0000_0000_0000

  function NextId(id: nat): (next: nat)
    ensures next < U64_VALUES
  {
    (id + 1) % U64_VALUES
  }
}
