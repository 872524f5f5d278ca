/** Several hosts in one process: each has its own policies, tools and files, and all share the grant counter. */
module Process {
  import opened Contract
  import opened Paths
  import opened Policies
  import opened Machine
  import opened MachineSafety

  datatype HostState = HostState(cfg: Config, st: State)

  /** `log` holds the events of all hosts in the order of their steps. */
  datatype ProcessState = ProcessState(hosts: seq<HostState>, nextGrant: nat, log: seq<Event>)

  datatype ProcessLabel = ProcessLabel(host: nat, step: Label)

  /** Hosts that have done nothing yet. */
  ghost predicate Fresh(p: ProcessState) {
    p.nextGrant == 1 && p.log == []
  }

  /** One step of one host, on the counter as the process has it. */
  function StepOne(p: ProcessState, l: ProcessLabel): ProcessState {
    if l.host >= |p.hosts| then p
    else
      var host := p.hosts[l.host];
      var st := host.st.(nextGrant := p.nextGrant);
      var after := Step(host.cfg, st, l.step);
      ProcessState(
        p.hosts[l.host := host.(st := after)],
        after.nextGrant,
        p.log + if |st.log| <= |after.log| then after.log[|st.log|..] else [])
  }

  function RunAll(p: ProcessState, labels: seq<ProcessLabel>): ProcessState {
    if labels == [] then p else StepOne(RunAll(p, labels[..|labels| - 1]), labels[|labels| - 1])
  }

  /** However the hosts interleave, the n-th allow record of the whole process carries id n (modulo the word size). */
  lemma {:induction false} ProcessIdsAreGapFree(p: ProcessState, labels: seq<ProcessLabel>)
    requires Fresh(p)
    ensures IdsOk(RunAll(p, labels).log, RunAll(p, labels).nextGrant)
  {
    if labels != [] {
      var mid, last := RunAll(p, labels[..|labels| - 1]), labels[|labels| - 1];
      ProcessIdsAreGapFree(p, labels[..|labels| - 1]);
      if last.host < |mid.hosts| {
        var host := mid.hosts[last.host];
        StepExtendsIds(host.cfg, host.st.(nextGrant := mid.nextGrant), last.step, mid.log);
      }
    }
  }

  /** Below the word size no two allow records of the process share an id, whichever hosts they come from. */
  lemma ProcessIdsAreUnique(p: ProcessState, labels: seq<ProcessLabel>)
    requires Fresh(p) && |AllowIds(RunAll(p, labels).log)| < U64_VALUES
    ensures
      var ids := AllowIds(RunAll(p, labels).log);
      forall i :: 0 <= i < |ids| ==> ids[i] == i + 1
  {
    ProcessIdsAreGapFree(p, labels);
    SmallIds(RunAll(p, labels).log, RunAll(p, labels).nextGrant);
  }
}
