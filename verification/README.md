# A verified model of the mvp tool-execution architecture

The repository lets tools act only through access facades: a facade resolves the request to an `Action`, asks the
`PolicyPipeline` for a grant, and performs the effect with the granted action. Tools may invoke other tools, with
authority that is preserved or reduced at every depth. This project models that architecture and proves what it
promises over every policy registry, every filesystem tree, every payload and every run.

## What is modelled

- **Capabilities** (`CapabilitySet`): the 64-bit word, the slots' bit positions, folding a list of slots.
- **Policies, registry and pipeline** (`Policies`, `Registry`, `Pipeline`): policies are arbitrary functions of a
  context and an action. `PolicyRegistry`, `PolicyPipeline`, `GrantCounter` and `AuditLog` are classes that work in
  place; `DecideAction` has the source's three loops with early exits. `View`, `Register`, `Report` and `RecordFor`
  say what they compute; `PipelineProofs` says what that means, in terms of policies, slots and records alone, and
  `AuditProofs` what a record says about its action.
- **Paths** (`Paths`, `PathProofs`, `PathMeaning`, `PathText`): a filesystem tree of directories, files and symbolic
  links, the system's component-by-component resolution with its bound on links followed, and the resolution functions
  of `crates/access-fs/src/action.rs:34-56,177-218` on top of it. Opening a file for writing follows links, as the
  standard backend does (`crates/access-fs/src/backend.rs:43-59`). `PathMeaning` says what resolution computes without
  walking: the component stack where there are no links, and where `..` and links lead anywhere.
- **Kernel** (`Kernel`): `KernelRuntime` with its session store, and the access facades as its methods; the functions
  `Reading`, `Writing`, `Fetching`, `Loading` and `Saving` say what they do to a `World`.
- **Invocation machine** (`Invocation`, `Machine`, `MachineShape`, `MachineFrames`, `MachineSafety`,
  `MachineRefinement`, `MachineConfinement`, `Process`): a run is a sequence of labels. At any step any live frame may
  start a facade call, invoke another tool with any override, or return, and the resolve, grant and effect steps of
  different calls interleave. Frames form a tree because `invoke_tool` takes a shared reference
  (`crates/app/src/lib.rs:174-214`). Tool code is thus any code at all; labels that do not apply change nothing. The
  log holds every grant record and effect.
- **Builtin tools** (`Builtin`, `BuiltinProofs`, `DoubleProofs`, `BuiltinRefinement`): `read_file`, `write_file` and
  `double` as a deterministic evaluator that recurses on strictly smaller payloads, and every one of its invocations
  as a machine run.
- **Monty** (`Json`, `Bridge`, `BridgeProofs`, `Monty`, `MontyProofs`, `MontyRefinement`): the value conversions, the
  drive loop and the tool around it, and each of its executions as a machine run. The interpreter is any sequence of
  `ReplProgress` events, each with any answer to its nested call.
- **Hosts** (`Urls`): host extraction and the domain policy. `Strings` splits paths and hosts; `Wrappers` and
  `Contract` hold the shared datatypes.

Where the code differs from what one might expect, the model follows the code:

- A top-level override may exceed the tool's declared capabilities, so authority is bounded by the top-level frame.
- The parent filesystem action and both session actions require no capability.
- Monty saves its session before it converts the result, so a failed call can have saved.
- `docs/architecture.md:166-182` gives canonical paths as the reason that links cannot alias an authorized resource.
  A write whose spelling does not resolve is authorized under its parent and name. When that name is a link, the code
  authorizes the link's own path and the write follows it: so for a link that leads nowhere yet, and also for a link to an
  existing file when the request ends in a slash or a dot. `PathProofs` and `MachineConfinement` state exactly when that
  matters, and `PathProofs.OutwardFileLinkExample` and `PathProofs.DanglingLinkExample` show both kinds.
- A session is recorded as its root, a hash and its id, so with a hash in a root two sessions can be recorded alike.

## Model

| member | source | states |
|---|---|---|
| `CapabilitySet.FromIter` | crates/contract/src/lib.rs:124-132 | the loop computes the word that the list's slots fold to |
| `CapabilitySet.ContainsIsInclusion` | crates/contract/src/lib.rs:46-107 | the bit test on folded words holds exactly when every slot of one list is in the other |
| `CapabilitySet.WordIgnoresOrderAndRepeats` | crates/contract/src/lib.rs:115-132 | lists with the same slots fold to one word, whatever their order and repeats |
| `CapabilitySet.WordHolds` | crates/contract/src/lib.rs:82-107 | a folded word allows a slot exactly when the slot is in the list: no two slots share a bit |
| `CapabilitySet.ContainsTransitive` | crates/app/src/lib.rs:180-200 | attenuation composes: a subset of a subset is a subset, on arbitrary 64-bit words |
| `CapabilitySet.SlotWords` | crates/contract/src/lib.rs:46-86 | the bit word of each of the eighteen slots, as a number |
| `Registry.PolicyRegistry.constructor` | crates/kernel/src/policy/registry.rs:30-37 | an empty registry whose next id is 1 |
| `Registry.PolicyRegistry.PrependAction` | crates/kernel/src/policy/registry.rs:55-62 | the whole new registry: one policy at the front of one action's deque, under a new id, nothing else changed |
| `Registry.PolicyRegistry.AppendAction` | crates/kernel/src/policy/registry.rs:64-71 | the same at the back of that deque |
| `Registry.PolicyRegistry.PrependInbound` | crates/kernel/src/policy/registry.rs:73-83 | the same at the front of the inbound deque |
| `Registry.PolicyRegistry.AppendInbound` | crates/kernel/src/policy/registry.rs:85-94 | the same at the back of the inbound deque |
| `Registry.PolicyRegistry.PrependOutbound` | crates/kernel/src/policy/registry.rs:96-106 | the same at the front of the outbound deque |
| `Registry.PolicyRegistry.AppendOutbound` | crates/kernel/src/policy/registry.rs:108-118 | the same at the back of the outbound deque |
| `Registry.PolicyRegistry.AllocatePolicyId` | crates/kernel/src/policy/registry.rs:120-124 | hands out the next id and advances it by one |
| `Registry.PolicyRegistry.GetOrDefault` | crates/kernel/src/policy/registry.rs:126-131 | the action's deque is present afterwards, empty if it was missing, and no other deque changed |
| `Registry.DequeIsPrependsThenAppends` | crates/kernel/src/policy/registry.rs:55-142 | after any registrations each deque is its own prepends reversed followed by its own appends, so other slots never matter |
| `Registry.DequeIds` | crates/kernel/src/policy/registry.rs:55-142 | ids fall over a deque's prepends and rise over its appends, and each entry is exactly the registration its id counts |
| `Registry.IdsAreUnique` | crates/kernel/src/policy/registry.rs:120-142 | two places in any two deques with one id are the same place |
| `Registry.EachIsRegistered` | crates/kernel/src/policy/registry.rs:55-142 | every registration is in its deque under its own id |
| `Pipeline.GrantCounter.NextGrantId` | crates/core/src/policy/traits.rs:111-115 | issues the counter's value and advances it, wrapping at 64 bits |
| `Pipeline.PolicyPipeline.Prepend` | crates/kernel/src/policy/pipeline.rs:175-181 | registers at the front of one action's stage |
| `Pipeline.PolicyPipeline.Append` | crates/kernel/src/policy/pipeline.rs:183-189 | registers at the back of one action's stage |
| `Pipeline.PolicyPipeline.PrependInbound` | crates/kernel/src/policy/pipeline.rs:191-196 | registers at the front of the inbound stage |
| `Pipeline.PolicyPipeline.AppendInbound` | crates/kernel/src/policy/pipeline.rs:198-203 | registers at the back of the inbound stage |
| `Pipeline.PolicyPipeline.PrependOutbound` | crates/kernel/src/policy/pipeline.rs:205-210 | registers at the front of the outbound stage |
| `Pipeline.PolicyPipeline.AppendOutbound` | crates/kernel/src/policy/pipeline.rs:212-217 | registers at the back of the outbound stage |
| `Pipeline.PolicyPipeline.DecideAction` | crates/kernel/src/policy/pipeline.rs:29-143 | the three early-exit loops compute the recursive report, and audit exactly its evaluations in order |
| `Pipeline.PolicyPipeline.Grant` | crates/kernel/src/policy/pipeline.rs:145-165 | every request logs exactly one grant record; only an allow takes an id, and a grant carries that allow record and the same action |
| `PipelineProofs.ReportIsFirstDecisive` | crates/kernel/src/policy/pipeline.rs:29-143 | the evaluations are exactly the entries of inbound, action, outbound up to the first decisive one, which gives the outcome; without one, all of them and a denial |
| `PipelineProofs.OutcomeFromEvaluations` | crates/kernel/src/policy/pipeline.rs:29-143 | the outcome can be recomputed from the evaluations alone |
| `PipelineProofs.OutcomeIsFirstSpeakers` | crates/kernel/src/policy/pipeline.rs:29-143 | the first policy to settle an action (inbound by denying, later by not abstaining) gives the outcome, under its own name, its registered id and its own reason |
| `PipelineProofs.SilenceDenies` | crates/kernel/src/policy/pipeline.rs:29-143 | an action that no policy settles is denied for want of a match |
| `PipelineProofs.RecordNamesFirstSpeaker` | crates/core/src/policy/traits.rs:39-99 | the grant record carries that policy, its reason (or the standing one) and the action; an allow hands back record and action, a denial the reason and the record |
| `PipelineProofs.InboundIsGate` | crates/kernel/src/policy/pipeline.rs:34-62 | inbound policies only deny: an action is allowed exactly when none denies and the later stages alone allow it |
| `PipelineProofs.OutcomeOfStages` | crates/kernel/src/policy/pipeline.rs:34-142 | an earlier stage settles the outcome by itself or leaves it wholly to the later ones |
| `PipelineProofs.AllowedIsWithinEnvelope` | crates/kernel/src/policy/builtins.rs:19-35 | with the envelope inbound, an allowed read is under `FsRead`, a write under `FsWrite`, a fetch under `NetworkFetch`, and any other action under what it declares |
| `PipelineProofs.EnvelopeAloneDecides` | crates/kernel/src/policy/builtins.rs:19-36 | with the envelope alone inbound and allow-all after it, a read is allowed exactly under `FsRead`, a write under `FsWrite`, a fetch under `NetworkFetch`, and the parent and both session actions always |
| `PipelineProofs.TypesTellKindsApart` | crates/kernel/src/policy/registry.rs:39-45 | two actions meet the same typed policies exactly when they are of one kind |
| `PipelineProofs.WorkspaceFsDecides` | crates/access-fs/src/policy.rs:29-43 | for the parent action the workspace policy allows exactly what is under the root and denies the rest |
| `PipelineProofs.EnvelopeStays` | crates/kernel/src/policy/pipeline.rs:175-217 | no sequence of registrations removes the envelope |
| `PipelineProofs.WiderCapabilitiesKeepAllows` | crates/kernel/src/policy/builtins.rs:20-34 | if only the envelope reads capabilities, enlarging them leaves every allowed decision, with its whole report, as it was |
| `PipelineProofs.TypedEqualsWrappedOutbound` | crates/kernel/src/policy/erased.rs:40-50 | a typed policy appended to its stage and its wrapper prepended outbound give every action of every type the same outcome, decider and id |
| `PipelineProofs.WrappedInboundOnlyRemoves` | crates/kernel/src/policy/erased.rs:40-50 | placed inbound, the wrapper removes exactly the allows its policy denies and adds none |
| `PipelineProofs.InboundOrderIsIrrelevant` | crates/kernel/src/policy/pipeline.rs:51-61 | permuting the inbound policies never changes whether an action is allowed |
| `PipelineProofs.AllowedIsUnion` | crates/kernel/src/policy/pipeline.rs:64-102 | typed policies that never deny allow the union of what each allows, in any order |
| `PipelineProofs.PathPoliciesAllowTheirUnion` | crates/access-fs/src/policy.rs:68-260 | any mix of exact, prefix and workspace rules, in any order, allows exactly the paths one of them covers |
| `AuditProofs.RecordIdentifiesRequest` | crates/kernel/src/audit.rs:265-269 | a record's kind and resource are those of exactly one request, up to the content written, when session roots hold no hash |
| `AuditProofs.RecordShows` | crates/access-fs/src/action.rs:107-175 | the kind and resource a grant record shows for each request |
| `Kernel.KernelRuntime.constructor` | crates/kernel/src/runtime/mod.rs:23-33 | a new runtime has the envelope inbound and nothing else, no sessions and no records |
| `Kernel.KernelRuntime.ReadFile` | crates/access-fs/src/access.rs:48-69 | the facade's result and whole new world: resolve, parent grant, read grant, then the read, each failure stopping there |
| `Kernel.KernelRuntime.WriteFile` | crates/access-fs/src/access.rs:71-92 | the same for a write; the file changes only after both grants |
| `Kernel.KernelRuntime.FetchUrl` | crates/access-network/src/access.rs:38-48 | one grant request, then the kernel's backend refuses |
| `Kernel.KernelRuntime.LoadSession` | crates/access-monty/src/access.rs:43-54 | one grant request, then the session stored under the workspace and id, if any |
| `Kernel.KernelRuntime.SaveSession` | crates/access-monty/src/access.rs:56-69 | one grant request, then exactly that session replaced |
| `Kernel.SavedSessionLoads` | crates/access-monty/src/store.rs:50-91 | a saved session is what a later allowed load under its workspace and id finds, and every other load finds what it would have found |
| `Kernel.LoadFindsWhatIsStored` | crates/access-monty/src/store.rs:75-81 | an allowed load gives what is stored under its key, and nothing where nothing was saved; a refused one an authorization failure |
| `Kernel.SavesIffAllowed` | crates/access-monty/src/access.rs:56-69 | a save succeeds exactly when it is allowed, and then replaces that one session; a refused one changes none |
| `Kernel.FetchIsRefused` | crates/access-network/src/access.rs:38-48 | a fetch never succeeds: the backend refuses exactly those the policies allow |
| `Kernel.MemoryMontySessionStore.Load` | crates/access-monty/src/store.rs:75-81 | what is stored under the granted key |
| `Kernel.MemoryMontySessionStore.Save` | crates/access-monty/src/store.rs:83-90 | the granted bytes under the granted key, every other session kept |
| `Invocation.App.RegisterTool` | crates/app/src/lib.rs:56-68 | a path keeps its first tool: a taken path is refused and the table unchanged |
| `PathProofs.WalkStops` | crates/access-fs/src/action.rs:34-56 | resolution ends at a link-free existing path, or when creating at a free name below a directory |
| `PathProofs.CanonicalizeIdempotent` | crates/access-fs/src/action.rs:34-37 | canonicalizing yields a link-free path that canonicalizes to itself, over every tree and link structure |
| `PathMeaning.CanonicalizeIsStack` | crates/access-fs/src/action.rs:34-37 | on a tree without links a path canonicalizes to its component stack (`.` keeps it, `..` pops it, a name pushes it) exactly when each component is read from a directory and the stack is there |
| `PathMeaning.UpLeadsToParent` | crates/access-fs/src/action.rs:34-37 | on every tree `..` after a directory leads to the directory that holds it, and stays at the top |
| `PathMeaning.DotStays` | crates/access-fs/src/action.rs:34-37 | `.` after a directory changes nothing |
| `PathMeaning.NothingBeyondFiles` | crates/access-fs/src/action.rs:34-37 | nothing resolves beyond a file, not even `..` or `.` |
| `PathMeaning.LinkReadsAsTarget` | crates/access-fs/src/action.rs:34-37 | a link reads as its target, from its own directory when relative and from the top when absolute, with one link fewer to follow |
| `PathMeaning.BudgetOnlyStops` | crates/access-fs/src/action.rs:34-37 | what resolves on some link budget resolves alike on every larger one |
| `PathMeaning.CanonicalizeIsResolve` | crates/access-fs/src/action.rs:34-37 | canonicalizing follows at most forty links |
| `PathMeaning.MissingName` | crates/access-fs/src/action.rs:34-56 | a missing name resolves only as the last component of a path that may be created |
| `PathProofs.ResolveReadShape` | crates/access-fs/src/action.rs:177-187 | a path authorized for reading exists, is link-free and is under the root |
| `PathMeaning.ReadResolvesToStack` | crates/access-fs/src/action.rs:177-187 | without links, a read is authorized as its component stack, from the root when relative, exactly when that resolves and is under the root |
| `PathMeaning.ReadRefusals` | crates/access-fs/src/action.rs:177-210 | otherwise it fails with an I/O error when it does not resolve and as outside the workspace when it does |
| `PathMeaning.DetourResolvesAlike` | crates/access-fs/src/action.rs:177-187 | on every tree the text `name/../other` resolves as the text `other` when `name` is a directory |
| `PathProofs.ResolveWriteShape` | crates/access-fs/src/action.rs:189-199 | a path authorized for writing is under the root, and link-free or a name below a link-free parent |
| `PathMeaning.WriteResolvesToStack` | crates/access-fs/src/action.rs:189-210 | without links, a write request that resolves is authorized as its component stack exactly when that is under the root |
| `PathMeaning.NewFileResolves` | crates/access-fs/src/action.rs:39-56 | one that does not resolve is authorized by its file name below what comes before the name, dots dropped; an unresolved parent is an I/O error |
| `PathMeaning.NoFileName` | crates/access-fs/src/action.rs:45-47 | one that neither resolves nor ends in a file name is refused for that |
| `PathProofs.WriteReachesAuthorizedPath` | crates/access-fs/src/action.rs:39-56 | a write that reaches a file reaches the authorized path itself exactly when no link sits there |
| `PathProofs.WriteGrows` | crates/access-fs/src/backend.rs:50-58 | a write changes one file, at its landing, adds no directory or link and keeps the tree well formed |
| `PathProofs.ReadAfterWrite` | crates/access-fs/src/backend.rs:43-59 | a written path reads back as written; any other readable path reads as before unless it led to the same file |
| `PathProofs.GrownKeepsWalks` | crates/access-fs/src/action.rs:34-37 | what resolved before a write still resolves to the same path after it |
| `PathProofs.GrownKeepsLandings` | crates/access-fs/src/backend.rs:50-58 | a write through any path lands where it would have landed before earlier writes, or fails as before |
| `PathProofs.OwnSpelling` | crates/access-fs/src/action.rs:39-56 | opening the request's own spelling for writing fails, or reaches what its authorized path reaches |
| `PathProofs.WriteAgain` | crates/access-fs/src/action.rs:39-56 | after a write the same request resolves to a path known beforehand, and writing there again changes nothing |
| `PathProofs.LinkFreeSecondTarget` | crates/access-fs/src/action.rs:39-56 | with no link at the target, the path is the same before the file exists and after it is created |
| `PathProofs.WritesStayInsideIff` | crates/access-fs/src/action.rs:189-210 | every write the facade authorizes lands in the workspace exactly when every link in it does |
| `PathProofs.DanglingLinkExample` | crates/access-fs/src/action.rs:39-56 | a workspace with one outward dangling link: the link is authorized, the file outside is written, and the same request is then refused |
| `PathProofs.OutwardFileLinkExample` | crates/access-fs/src/action.rs:39-56 | an outward link to an existing file: refused by its name, authorized with a dot after it, and then overwritten outside, every time |
| `PathText.DisplayedPathParses` | crates/access-fs/src/access.rs:48-50 | the text a path is shown as parses, as tool input, to that path's own names |
| `PathText.DisplayInjective` | crates/kernel/src/audit.rs:265-269 | two different filesystem paths are never shown alike in the audit |
| `PathText.SessionsRecordedAlikeIff` | crates/access-monty/src/store.rs:57-61 | two sessions are recorded alike exactly when they are the same, or a hash in one root lets the two texts overlap |
| `PathText.HashFreeRootsTellApart` | crates/access-monty/src/store.rs:57-61 | with no hash in either root the record tells any two sessions apart |
| `PathText.SessionsRecordedAlikeExample` | crates/access-monty/src/store.rs:57-61 | two different sessions with one recorded text |
| `PathText.PlainNameParses` | crates/access-fs/src/access.rs:71-73 | a plain name is that name as tool input; a slash, or a slash and a dot, after it asks for a directory |
| `PathMeaning.DotDotParses` | crates/access-fs/src/access.rs:71-73 | as tool input `..` is one step up, alone and between two names |
| `MachineShape.RunKeepsShape` | crates/app/src/lib.rs:126-214 | in every run frames keep their parent's root and at most its capabilities, calls stay under their frame's root, no facade panics on its root, and the tree only gains files |
| `MachineSafety.RunKeepsProtocol` | crates/access-fs/src/access.rs:48-92 | in every interleaving each call's own log is the grant sequence of its action as far as it has come, ending at its first denial or its one effect |
| `MachineSafety.EffectsAreMediated` | crates/access-fs/src/access.rs:52-91 | when an effect happens its call has logged exactly one allow record per action of its trail (parent, then read or write), naming that resource, and logs nothing afterwards |
| `MachineSafety.AuthorityNeverGrows` | crates/app/src/lib.rs:174-214 | in every reachable state a frame has at most the capabilities of every ancestor, and the same root |
| `MachineFrames.InvokeWithOverride` | crates/app/src/lib.rs:174-214 | a nested invocation with an override adds one live frame with exactly the capabilities asked for, the caller as parent and the caller's root, if and only if the caller holds them all; otherwise nothing happens |
| `MachineFrames.InvokeWithoutOverride` | crates/app/src/lib.rs:174-214 | without an override it adds that frame with exactly the caller's capabilities |
| `MachineFrames.StartedWith` | crates/app/src/lib.rs:126-146 | a top-level call of a known tool in an existing workspace adds one frame, with its override or else the tool's declared capabilities, and the canonical root; otherwise nothing happens |
| `MachineFrames.NothingEntered` | crates/app/src/lib.rs:264-276 | an unknown tool is never entered, and an ended frame enters none |
| `MachineFrames.ExpansionIsRefused` | crates/app/src/lib.rs:180-196 | asking for more than the caller has is refused with the standing reason and no record |
| `MachineFrames.PanicsIff` | crates/access-fs/src/access.rs:29-46 | the facade's expectation fails exactly when a file is asked for in a root that no longer resolves |
| `MachineFrames.EndedFrameIsDone` | crates/app/src/lib.rs:174-214 | once its tool has returned a frame never again makes or advances a call, enters a tool or logs, whatever the run goes on to do |
| `MachineSafety.EffectsStayInRootEnvelope` | crates/kernel/src/policy/builtins.rs:19-36 | at any depth a read happens only if the top-level frame was given `FsRead`, a write only with `FsWrite`, a fetch only with `NetworkFetch`, any other effect only with what it declares |
| `MachineSafety.NoEffectWithoutSlot` | crates/access-fs/src/action.rs:134-166 | if no top-level frame was given `FsRead` no run reads a file, without `FsWrite` none writes one, without `NetworkFetch` none fetches |
| `MachineSafety.RegistrationsKeepEnvelope` | crates/kernel/src/runtime/mod.rs:23-33 | that bound applies after any sequence of registrations on a new runtime |
| `MachineSafety.GrantIdsAreGapFree` | crates/core/src/policy/traits.rs:53-115 | in every run the n-th allow record carries id n modulo the word size; denials take none |
| `MachineSafety.GrantIdsAreUnique` | crates/core/src/policy/traits.rs:111-115 | below the word size the ids issued are exactly 1 to n, each once |
| `Process.ProcessIdsAreGapFree` | crates/core/src/policy/traits.rs:111-115 | the same over any interleaving of any number of hosts that share the process's counter, each with its own policies, tools and files |
| `Process.ProcessIdsAreUnique` | crates/core/src/policy/traits.rs:111-115 | below the word size no two allow records of the process share an id, whichever hosts they come from |
| `MachineSafety.ChangesAreAttributed` | crates/access-fs/src/access.rs:71-92 | every file a run changed is where a performed write landed, every session one performed as saved |
| `MachineSafety.NoWriteCapabilityNoFileChange` | crates/kernel/src/policy/builtins.rs:19-36 | if no top-level frame was given `FsWrite`, no run changes any file, however deep it nests |
| `MachineSafety.FilesOutsideWorkspacesStay` | crates/access-fs/src/action.rs:189-210 | no file outside the workspaces of a run's frames changes while the links in them stay inside |
| `MachineSafety.SessionsStayInTheirWorkspace` | crates/access-monty/src/access.rs:56-69 | a run changes sessions only under the root of one of its frames |
| `MachineSafety.WorkspaceFsPolicyNeverDenies` | crates/access-fs/src/policy.rs:36-42 | whatever parent action a run asks for, that policy allows it: its deny branch is unreachable through the facade |
| `MachineConfinement.WorkspaceConfinesIff` | crates/access-fs/src/action.rs:189-210 | where policies allow writing in a workspace, every run in it changes only files in it exactly when no link in it leads out |
| `MachineRefinement.UninterruptedCallIsFacade` | crates/access-fs/src/access.rs:48-92 | a call whose steps run without interruption leaves exactly the world the facade method leaves |
| `MachineRefinement.DeclaredCapabilitiesDoNotInterfere` | crates/app/src/lib.rs:133-137 | hosts that differ only in declared capabilities run identically when top-level calls carry overrides |
| `Builtin.ParseDouble` | crates/tool-builtin/src/double.rs:26-37 | it succeeds exactly when there is a path string and a payload, and gives those two, the payload a field and so strictly smaller; otherwise the first missing or wrong field is the error |
| `BuiltinRefinement.TopLevelInvocationIsRun` | crates/app/src/lib.rs:264-308 | every top-level invocation of a builtin tool, with all it nests, is a run of the machine, so every run property holds of it |
| `BuiltinRefinement.InvocationIsRun` | crates/app/src/lib.rs:174-214 | every nested invocation is a run from the caller's frame that leaves all live frames as they were |
| `BuiltinProofs.ReadRun` | crates/tool-builtin/src/read_file.rs:45-67 | one read succeeds exactly when its path resolves under the root, both grants are allowed and a file is there; it gives that content, workspace-local, and changes no file |
| `BuiltinProofs.WriteRun` | crates/tool-builtin/src/write_file.rs:44-70 | one write succeeds exactly when its path resolves under the root, both grants are allowed and the target can be opened; it leaves that write's tree and two allow records |
| `BuiltinProofs.NotEntered` | crates/app/src/lib.rs:264-276 | an unknown tool or an unresolved workspace ends an invocation with its own error before the tool is entered, and nothing changes |
| `BuiltinProofs.TextIsRead` | crates/tool-builtin/src/read_file.rs:46-50 | a text field is found exactly when the payload is an object holding a string there |
| `BuiltinProofs.MissingFields` | crates/tool-builtin/src/read_file.rs:45-53 | a payload without a tool's fields ends the invocation with the first missing one, and nothing changes |
| `BuiltinProofs.ReadingFails` | crates/access-fs/src/access.rs:48-69 | why a read fails and what is recorded by then: its own resolution error and nothing recorded, or the record of the first denial, or an I/O failure after both grants |
| `BuiltinProofs.WritingFails` | crates/access-fs/src/access.rs:71-92 | the same for a write, with the files as they were |
| `BuiltinProofs.FailuresAreReported` | crates/app/src/lib.rs:264-308 | a builtin file tool works under its override or else its declared capabilities, leaves exactly the facade's world and reports the facade's own error |
| `BuiltinProofs.NestedDoubles` | crates/tool-builtin/src/double.rs:39-49 | `n` doubles around a steady leaf run it 2^n times in 2^(n+1) - 1 invocations (all but the first nested), take exactly 2^(n+1) grant ids, and leave one run's files and outcome |
| `DoubleProofs.NestedDoublesAreRuns` | crates/tool-builtin/src/double.rs:39-49 | for every leaf and every `n`: `n` doubles leave exactly the world and result of 2^n runs of the leaf in a row, stopping at the first failure, run it exactly that often, and enter exactly the tools that takes |
| `DoubleProofs.TimesStopsAtFirstFailure` | crates/tool-builtin/src/double.rs:44-46 | that row of runs is all successes up to its last run, which ends it by failing or by being the last asked for |
| `DoubleProofs.NestedDoublesFail` | crates/tool-builtin/src/double.rs:44-46 | if the leaf's first run fails, any number of doubles stop after one path down and that one run, with its world and its error |
| `BuiltinProofs.DoubledReadIsTransparent` | crates/tool-builtin/src/read_file.rs:55-67 | a read under `n` doubles gives the content of one read and changes no file |
| `BuiltinProofs.SecondWrite` | crates/tool-builtin/src/write_file.rs:59-70 | repeating a successful write succeeds exactly when its second target is under the root and the policies allow it, and then changes no file |
| `DoubleProofs.DoubledWriteIsTransparentIff` | crates/tool-builtin/src/double.rs:44-48 | a write under `n` doubles leaves the files and outcome of one write exactly when the request may be written again |
| `DoubleProofs.DoubledWriteStopsAtSecond` | crates/tool-builtin/src/double.rs:44-48 | when it may not, any number of doubles run it exactly twice, leave the files of one write and give the second run's error |
| `DoubleProofs.DanglingWriteIsNotRepeated` | crates/access-fs/src/action.rs:39-56 | that failing side happens: on a host with the envelope, for a write through a dangling link, under any number of doubles |
| `BuiltinProofs.LinkFreeWritesRepeat` | crates/access-fs/src/action.rs:39-56 | that condition always holds when the authorized path is not a link |
| `BuiltinProofs.WiderCapabilitiesKeepRuns` | crates/app/src/lib.rs:180-200 | a builtin-tool run that succeeds under some capabilities gives the same outcome, files, sessions and records under more |
| `Bridge.DictPairsToJson` | crates/tool-monty/src/lib.rs:494-508 | the insertion loop computes the recursive conversion: later duplicates win, the first failure stops it |
| `BridgeProofs.LastDuplicateWins` | crates/tool-monty/src/lib.rs:494-508 | a converted dictionary holds the value of each key's last pair |
| `BridgeProofs.ConvertsIff` | crates/tool-monty/src/lib.rs:458-488 | a Monty value has a JSON form exactly when it holds no non-finite float and no dictionary key other than a string, at any depth |
| `BridgeProofs.SequencesConvert` | crates/tool-monty/src/lib.rs:476-479 | a list, tuple, set or frozen set converts exactly when each element does, to an array of the same length whose i-th item is the i-th element's own conversion |
| `BridgeProofs.PairsConvertIff` | crates/tool-monty/src/lib.rs:494-508 | a dictionary converts exactly when each pair does, to an object with exactly its keys |
| `BridgeProofs.DictionariesConvert` | crates/tool-monty/src/lib.rs:494-508 | a converted dictionary has exactly its keys, each holding the conversion of its last value |
| `BridgeProofs.BigIntegersConvert` | crates/tool-monty/src/lib.rs:463 | a big integer converts to a string that reads back to it: its sign, no leading zero, its own digits |
| `BridgeProofs.ScalarsConvert` | crates/tool-monty/src/lib.rs:458-469 | truth values, integers, finite floats, strings, paths and reprs convert to their own value or text, none and the ellipsis to null, other floats not at all |
| `BridgeProofs.BytesConvert` | crates/tool-monty/src/lib.rs:470-475 | bytes convert to an array of their own numbers |
| `BridgeProofs.RecordsConvert` | crates/tool-monty/src/lib.rs:481-488 | an exception or function converts to exactly its two named fields, null where the second is absent |
| `BridgeProofs.ThereAndBack` | crates/tool-monty/src/lib.rs:458-538 | JSON to Monty never fails, and coming back gives the value with integers above the signed range rounded to floats |
| `BridgeProofs.ScalarsReturn` | crates/tool-monty/src/lib.rs:510-529 | null, truth values, texts and numbers come back as their own kind: an integer in the signed range stays one, any other number is a float |
| `BridgeProofs.ArraysReturn` | crates/tool-monty/src/lib.rs:510-530 | an array comes back as a list of the same length, item by item in order |
| `BridgeProofs.RoundTripIdentityIff` | crates/tool-monty/src/lib.rs:458-538 | that round trip is the identity exactly on values with no such integer |
| `BridgeProofs.RoundTripIdempotent` | crates/tool-monty/src/lib.rs:458-538 | on every value a second round trip changes nothing more |
| `BridgeProofs.SentRoundTrips` | crates/tool-monty/src/lib.rs:458-538 | whatever Monty value converts to JSON, that JSON comes back and goes out again unchanged |
| `BridgeProofs.ObjectBecomesOrderedDict` | crates/tool-monty/src/lib.rs:531-536 | an object becomes a dictionary with one pair per key, in key order, each holding its own converted field |
| `Bridge.KeysRise` | crates/tool-monty/src/lib.rs:531-536 | that order visits each key once, in rising order |
| `Monty.DriveLoop` | crates/tool-monty/src/lib.rs:96-239 | the loop computes the recursive conversation for every interpreter behaviour |
| `Monty.NestedTurn` | crates/tool-monty/src/lib.rs:149-173 | one nested call: the path is decoded, no override is passed, a success is merged even if its payload then fails to convert |
| `MontyProofs.CompletedIsMostSensitive` | crates/tool-monty/src/lib.rs:540-552 | a completed conversation is `Sensitive` exactly when some nested call before its end succeeded with that, `WorkspaceLocal` exactly when none did and some succeeded with that, and `Public` otherwise |
| `MontyProofs.CallsFollowEvents` | crates/tool-monty/src/lib.rs:128-222 | the nested calls are exactly those the events ask for, in order, up to the event that ends the conversation: a function call its own exposed tool with its own payload, an operating-system call the OS tool |
| `MontyProofs.ResumesFollowEvents` | crates/tool-monty/src/lib.rs:96-239 | a conversation ends at its first ending event, completed there with its value or failed; each earlier event is resumed by what its own name, call and reply say: a success as the value that converts back to its payload, a failure as an error |
| `MontyProofs.NestedCallsAreConfined` | crates/tool-monty/src/lib.rs:149-200 | every nested call goes to a decoded exposed or OS tool path, carries no override, and its payload is an object with no integer above the signed range |
| `MontyProofs.WrappedPayloadOk` | crates/tool-monty/src/lib.rs:401-405 | a wrapped payload has exactly the fields `args` and `kwargs`, each the conversion of its own arguments |
| `MontyProofs.LoneObjectIsPayload` | crates/tool-monty/src/lib.rs:390-399 | one argument that converts to an object is the payload itself |
| `MontyProofs.OtherwiseWrapped` | crates/tool-monty/src/lib.rs:390-405 | anything else is wrapped as `args` and `kwargs`, and there is no payload exactly when one of those does not convert |
| `MontyProofs.OsPayloadFields` | crates/tool-monty/src/lib.rs:194-202 | an operating-system call's payload has exactly its function name and its converted arguments |
| `Monty.Execute` | crates/tool-monty/src/lib.rs:274-307 | the session is saved at most once, only after a completed conversation, and success means saved and converted with the conversation's classification |
| `MontyProofs.FailedResultCanHaveSaved` | crates/tool-monty/src/lib.rs:290-302 | a value with no JSON form makes the call fail after its session was saved |
| `MontyRefinement.ExecutionIsRun` | crates/tool-monty/src/lib.rs:274-307 | an execution is a machine run: load, its nested calls in order with anything at all happening while each is out, and a save exactly when the tool saves; its frame stays and its own session calls do what the facades do |
| `MontyRefinement.NestedCallEntersLikeCaller` | crates/app/src/lib.rs:174-214 | each nested call enters a frame with exactly the tool's own capabilities and root |
| `MontyRefinement.SavedExecution` | crates/access-monty/src/access.rs:56-69 | a saving execution changes, after its nested calls, only the session under its own root and id, and that exactly when the policies allow the save |
| `Urls.HostIsExtractedIff` | crates/access-network/src/policy.rs:93-98 | a host is extracted exactly when the URL is scheme, first `://`, that host, and a rest that cannot continue it |
| `Urls.DomainIsLabelSuffix` | crates/access-network/src/policy.rs:82-89 | the domain test holds exactly when the domain's labels end the host's labels |
| `Urls.DomainPolicyAllowsIff` | crates/access-network/src/policy.rs:69-90 | the domain policy allows exactly the URLs that have a host whose labels end in the domain's, and abstains otherwise |
| `Urls.DomainsNest` | crates/access-network/src/policy.rs:82-89 | a host under a domain under another domain is under that one |

## Left out

- Tracing spans, OpenTelemetry export, log text and predicate strings: the audit is the sequence of evaluations and grant records.
- Disk permissions, concurrent outside processes, `tokio` and `Mutex` poisoning: the tree and the session map change only through the facades.
- File contents that are not UTF-8, which `read_file` reports as an I/O error.
- A workspace root given relative to the process's working directory: raw roots are resolved from the top.
- The system's other resolution limits, such as name and path lengths; the bound on links followed is the constant `Paths.MAX_LINKS`.
- MachineSafety.GrantIdsAreGapFree: is about one host that owns the counter; `Process.ProcessIdsAreGapFree` is about hosts that share it.
- MachineSafety.GrantIdsAreUnique: likewise one host; `Process.ProcessIdsAreUnique` is the statement for the process.
- The delay between taking a grant id and emitting its record: both are one step here, so the log is in the order of taking, while an audit stream may show records of concurrent requests in another order.
- Overflow of the 64-bit policy-id counter, which would take 2^64 registrations; grant ids do wrap in the model.
- Removal or replacement of `KernelRuntime.policy` as a whole, which its public field permits; the envelope invariant is about the six registration methods.
- A frame whose tool has returned cannot act, but its unfinished children may: the machine does not cancel them, so its runs include all of the source's and more.
- The policy set is fixed during a run, as `invoke_tool` only has a shared reference to the host.
- The Monty interpreter and its session codec: arbitrary events and answers. Its error messages that print values are constants here.
- The catch-all arm of `monty_to_json` (`crates/tool-monty/src/lib.rs:489-490`): values reaching it are not in the model's `MontyObject`.
- Rounding of large integers to doubles: the bridge proofs hold for every rounding function. Infinities and NaN are one value without a JSON form.
- `MontyOsTool`, `AllowExactUrlFetchPolicy`, `StaticNetworkBackend` and the session policies: short functions that add no depth.
- URL syntax beyond the code's own splitting (user information, IPv6 literals, letter case).
- Classification is merged by the drive loop only; the code neither tracks it across sessions nor enforces it.
- Test hosts, the demo and `async` scheduling other than interleaving of facade steps.
