/** What any number of nested doubles does to any leaf, whether it succeeds, fails, or succeeds and then fails. */
module DoubleProofs {
  import opened Wrappers
  import opened CapabilitySet
  import opened Json
  import opened Contract
  import opened Paths
  import opened PathProofs
  import opened PathText
  import opened Policies
  import opened Registry
  import opened Pipeline
  import opened PipelineProofs
  import opened Kernel
  import opened Invocation
  import opened Builtin
  import opened BuiltinProofs

  type Outcome = Result<ToolOutcome, ToolError>

  // ----- Repeating a step -----

  /** Up to `k` steps in a row, stopping at the first failure: the world left, the last result, the steps taken. */
  function Times(step: World -> (World, Outcome), w: World, k: nat): (World, Outcome, nat)
    requires k > 0
    decreases k
  {
    var (after, r) := step(w);
    if r.Err? || k == 1 then (after, r, 1)
    else
      var (last, result, runs) := Times(step, after, k - 1);
      (last, result, runs + 1)
  }

  /** The world after `j` steps, whatever their results. */
  function After(step: World -> (World, Outcome), w: World, j: nat): World
    decreases j
  {
    if j == 0 then w else After(step, step(w).0, j - 1)
  }

  /** The steps taken are those up to the first failure: all but the last succeed, and the last ends it. */
  lemma {:induction false} TimesStopsAtFirstFailure(step: World -> (World, Outcome), w: World, k: nat)
    requires k > 0
    ensures
      var (after, r, runs) := Times(step, w, k);
      && 1 <= runs <= k && (runs == k || r.Err?)
      && (after, r) == step(After(step, w, runs - 1))
      && forall j: nat :: j < runs - 1 ==> step(After(step, w, j)).1.Ok?
    decreases k
  {
    var (next, r) := step(w);
    if r.Ok? && k > 1 {
      TimesStopsAtFirstFailure(step, next, k - 1);
      var runs := Times(step, w, k).2;
      forall j: nat | j < runs - 1
        ensures step(After(step, w, j)).1.Ok?
      {
        if j > 0 { assert After(step, w, j) == After(step, next, j - 1); }
      }
    }
  }

  lemma {:induction false} TimesCounts(step: World -> (World, Outcome), w: World, k: nat)
    requires k > 0
    ensures
      var (_, r, runs) := Times(step, w, k);
      1 <= runs <= k && (r.Ok? ==> runs == k)
    decreases k
  {
    var (after, r) := step(w);
    if r.Ok? && k > 1 {
      TimesCounts(step, after, k - 1);
    }
  }

  /** `a + b` steps are `a` steps and then, unless one failed, `b` more. */
  lemma {:induction false} TimesSplits(step: World -> (World, Outcome), w: World, a: nat, b: nat)
    requires a > 0 && b > 0
    ensures
      var (mid, first, runs) := Times(step, w, a);
      Times(step, w, a + b) ==
      if first.Err? then (mid, first, runs)
      else
        var (last, second, more) := Times(step, mid, b);
        (last, second, runs + more)
    decreases a
  {
    var (after, r) := step(w);
    if r.Ok? && a > 1 {
      TimesSplits(step, after, a - 1, b);
    }
  }

  // ----- Doubles -----

  /** One run of the leaf as a step of the world. */
  function LeafStep(h: Host, leaf: Leaf, params: InvocationParams): World -> (World, Outcome) {
    w =>
      var (s, r) := Invoke(h, HostState(w, []), leaf.path, params, leaf.payload);
      (s.world, r)
  }

  ghost predicate RootOk(w: World, root: Path) {
    WellFormed(w.tree) && Canonical(w.tree, root)
  }

  ghost function KeepsRoot(root: Path): World -> bool {
    w => RootOk(w, root)
  }

  /** The calls made, in order, by `n` nested calls of `outer` around a leaf `x` that was run this often. */
  function Calls<T>(outer: T, x: T, n: nat, runs: nat): seq<T> {
    if n == 0 then [x]
    else if runs <= Pow2(n - 1) then [outer] + Calls(outer, x, n - 1, runs)
    else [outer] + (Calls(outer, x, n - 1, Pow2(n - 1)) + Calls(outer, x, n - 1, runs - Pow2(n - 1)))
  }

  /** The tools entered by `n` doubles around a leaf that was run this often. */
  function Trace(leaf: Leaf, n: nat, runs: nat): seq<string> {
    Calls(leaf.doublePath, leaf.path, n, runs)
  }

  lemma {:induction false} CountConcat<T>(xs: seq<T>, ys: seq<T>, x: T)
    ensures Count(xs + ys, x) == Count(xs, x) + Count(ys, x)
  {
    if ys == [] {
      assert xs + ys == xs;
    } else {
      var init, last := ys[..|ys| - 1], ys[|ys| - 1];
      assert ys == init + [last] && xs + ys == (xs + init) + [last];
      CountConcat(xs, init, x);
      CountSnoc(xs + init, last, x);
      CountSnoc(init, last, x);
    }
  }

  lemma CountOfOne<T>(y: T, x: T)
    ensures Count([y], x) == if y == x then 1 else 0
  {
    CountSnoc([], y, x);
    assert [] + [y] == [y];
  }

  lemma CountAfter<T>(outer: T, xs: seq<T>, x: T)
    requires outer != x
    ensures Count([outer] + xs, x) == Count(xs, x)
  {
    CountOfOne(outer, x);
    CountConcat([outer], xs, x);
  }

  /** The calls hold the leaf once for every run. */
  lemma {:induction false} CallsCount<T>(outer: T, x: T, n: nat, runs: nat)
    requires 1 <= runs <= Pow2(n) && x != outer
    ensures Count(Calls(outer, x, n, runs), x) == runs
  {
    if n == 0 {
      CountOfOne(x, x);
    } else if runs <= Pow2(n - 1) {
      CallsCount(outer, x, n - 1, runs);
      CountAfter(outer, Calls(outer, x, n - 1, runs), x);
    } else {
      var first, second := Calls(outer, x, n - 1, Pow2(n - 1)), Calls(outer, x, n - 1, runs - Pow2(n - 1));
      CallsCount(outer, x, n - 1, Pow2(n - 1));
      CallsCount(outer, x, n - 1, runs - Pow2(n - 1));
      CountConcat(first, second, x);
      CountAfter(outer, first + second, x);
    }
  }

  lemma Regroup<T>(trace: seq<T>, outer: T, xs: seq<T>, ys: seq<T>)
    ensures trace + [outer] + xs == trace + ([outer] + xs)
    ensures trace + [outer] + xs + ys == trace + ([outer] + (xs + ys))
  {
  }

  /** What 2^n steps leave, with the trace of the doubles that take them. */
  function Repeated(step: World -> (World, Outcome), leaf: Leaf, n: nat, w: World, trace: seq<string>)
    : (HostState, Outcome)
  {
    var (after, r, runs) := Times(step, w, Pow2(n));
    (HostState(after, trace + Trace(leaf, n, runs)), r)
  }

  /** One more level: the first half of the steps, and the second unless one of them failed. */
  lemma RepeatedTwice(step: World -> (World, Outcome), leaf: Leaf, n: nat, w: World, trace: seq<string>)
    requires n > 0
    ensures
      var (mid, first) := Repeated(step, leaf, n - 1, w, trace + [leaf.doublePath]);
      Repeated(step, leaf, n, w, trace) ==
      if first.Err? then (mid, first) else Repeated(step, leaf, n - 1, mid.world, mid.invoked)
  {
    var half := Pow2(n - 1);
    var (mid, first, runs) := Times(step, w, half);
    var more := Times(step, mid, half).2;
    TimesCounts(step, w, half);
    TimesCounts(step, mid, half);
    TimesSplits(step, w, half, half);
    Regroup(trace, leaf.doublePath, Trace(leaf, n - 1, runs), Trace(leaf, n - 1, more));
  }

  /** A run of `n` doubles is a run of one fewer, and a second one unless the first failed. */
  ghost predicate Unfolds(run: (nat, HostState) -> (HostState, Outcome), leaf: Leaf, n: nat, s: HostState)
    requires n > 0
  {
    var (mid, first) := run(n - 1, s.(invoked := s.invoked + [leaf.doublePath]));
    run(n, s) == if first.Err? then (mid, first) else run(n - 1, mid)
  }

  /** What doubling is: one level runs the level below at most twice, and the lowest takes one step. */
  ghost predicate Doubling(
    run: (nat, HostState) -> (HostState, Outcome), step: World -> (World, Outcome), leaf: Leaf, ok: World -> bool)
  {
    && (forall n: nat, s: HostState {:trigger Unfolds(run, leaf, n, s)} ::
          n > 0 && ok(s.world) ==> Unfolds(run, leaf, n, s))
    && (forall s: HostState {:trigger run(0, s)} ::
          ok(s.world) ==> run(0, s) == Repeated(step, leaf, 0, s.world, s.invoked))
    && (forall w: World {:trigger step(w)} :: ok(w) ==> ok(step(w).0))
  }

  lemma {:induction false} TimesKeeps(step: World -> (World, Outcome), ok: World -> bool, w: World, k: nat)
    requires (forall w: World {:trigger step(w)} :: ok(w) ==> ok(step(w).0)) && ok(w) && k > 0
    ensures ok(Times(step, w, k).0)
    decreases k
  {
    var (after, r) := step(w);
    if r.Ok? && k > 1 {
      TimesKeeps(step, ok, after, k - 1);
    }
  }

  lemma DoublingStep(
      run: (nat, HostState) -> (HostState, Outcome), step: World -> (World, Outcome), leaf: Leaf, n: nat, s: HostState)
    requires n > 0 && Unfolds(run, leaf, n, s)
    requires
      var entered := s.(invoked := s.invoked + [leaf.doublePath]);
      var (mid, first) := Repeated(step, leaf, n - 1, s.world, entered.invoked);
      && run(n - 1, entered) == (mid, first)
      && (first.Ok? ==> run(n - 1, mid) == Repeated(step, leaf, n - 1, mid.world, mid.invoked))
    ensures run(n, s) == Repeated(step, leaf, n, s.world, s.invoked)
  {
    RepeatedTwice(step, leaf, n, s.world, s.invoked);
  }

  /** Doubling `n` times is repeating 2^n times. */
  lemma {:induction false} DoublingRepeats(
      run: (nat, HostState) -> (HostState, Outcome), step: World -> (World, Outcome), leaf: Leaf, ok: World -> bool,
      n: nat, s: HostState)
    requires Doubling(run, step, leaf, ok) && ok(s.world)
    ensures run(n, s) == Repeated(step, leaf, n, s.world, s.invoked)
    decreases n
  {
    if n > 0 {
      var entered := s.(invoked := s.invoked + [leaf.doublePath]);
      var (mid, first) := Repeated(step, leaf, n - 1, s.world, entered.invoked);
      DoublingRepeats(run, step, leaf, ok, n - 1, entered);
      if first.Ok? {
        TimesKeeps(step, ok, s.world, Pow2(n - 1));
        DoublingRepeats(run, step, leaf, ok, n - 1, mid);
      }
      assert Unfolds(run, leaf, n, s);
      DoublingStep(run, step, leaf, n, s);
    }
  }

  /** The leaf under `n` doubles, as a function of `n`. */
  function DoubleRun(h: Host, leaf: Leaf, params: InvocationParams): (nat, HostState) -> (HostState, Outcome) {
    (n: nat, s: HostState) => Invoke(h, s, TargetAt(leaf, n), params, Nested(leaf, n))
  }

  lemma DoubleUnfoldsOnce(h: Host, leaf: Leaf, root: Path, caps: Capabilities, n: nat, s: HostState)
    requires LeafOf(h, leaf) && n > 0 && RootOk(s.world, root)
    ensures Unfolds(DoubleRun(h, leaf, Inherited(root, caps)), leaf, n, s)
  {
    var params, run := Inherited(root, caps), DoubleRun(h, leaf, Inherited(root, caps));
    var entered := s.(invoked := s.invoked + [leaf.doublePath]);
    DoubleUnfolds(h, leaf, root, caps, n, s);
    assert run(n - 1, entered) == Invoke(h, entered, TargetAt(leaf, n - 1), params, Nested(leaf, n - 1));
    assert run(n, s) == Invoke(h, s, leaf.doublePath, params, Nested(leaf, n));
  }

  lemma LeafRepeats(h: Host, leaf: Leaf, root: Path, caps: Capabilities, s: HostState)
    requires LeafOf(h, leaf) && RootOk(s.world, root)
    ensures DoubleRun(h, leaf, Inherited(root, caps))(0, s) ==
            Repeated(LeafStep(h, leaf, Inherited(root, caps)), leaf, 0, s.world, s.invoked)
  {
    LeafIgnoresTrace(h, leaf, Inherited(root, caps), HostState(s.world, []), s.invoked, root);
  }

  lemma DoublesDouble(h: Host, leaf: Leaf, root: Path, caps: Capabilities)
    requires LeafOf(h, leaf)
    ensures
      Doubling(DoubleRun(h, leaf, Inherited(root, caps)), LeafStep(h, leaf, Inherited(root, caps)), leaf, KeepsRoot(root))
  {
    var run, step := DoubleRun(h, leaf, Inherited(root, caps)), LeafStep(h, leaf, Inherited(root, caps));
    forall n: nat, s: HostState | n > 0 && RootOk(s.world, root)
      ensures Unfolds(run, leaf, n, s)
    {
      DoubleUnfoldsOnce(h, leaf, root, caps, n, s);
    }
    forall s: HostState | RootOk(s.world, root)
      ensures run(0, s) == Repeated(step, leaf, 0, s.world, s.invoked)
    {
      LeafRepeats(h, leaf, root, caps, s);
    }
    forall w: World | RootOk(w, root)
      ensures RootOk(step(w).0, root)
    {
      LeafKeepsRoot(h, leaf, root, caps, HostState(w, []));
    }
  }

  lemma DoublesRepeat(h: Host, leaf: Leaf, root: Path, caps: Capabilities, n: nat, s: HostState)
    requires LeafOf(h, leaf) && RootOk(s.world, root)
    ensures Invoke(h, s, TargetAt(leaf, n), Inherited(root, caps), Nested(leaf, n)) ==
            Repeated(LeafStep(h, leaf, Inherited(root, caps)), leaf, n, s.world, s.invoked)
  {
    var run, step := DoubleRun(h, leaf, Inherited(root, caps)), LeafStep(h, leaf, Inherited(root, caps));
    DoublesDouble(h, leaf, root, caps);
    DoublingRepeats(run, step, leaf, KeepsRoot(root), n, s);
    assert run(n, s) == Invoke(h, s, TargetAt(leaf, n), Inherited(root, caps), Nested(leaf, n));
  }

  /**
   * `n` doubles around any leaf leave exactly the world and the result of 2^n runs of it in a row,
   * stopping at the first failure, and run it exactly that often.
   */
  lemma NestedDoublesAreRuns(h: Host, leaf: Leaf, root: Path, caps: Capabilities, n: nat, s: HostState)
    requires LeafOf(h, leaf) && RootOk(s.world, root)
    ensures
      var (w, result, runs) := Times(LeafStep(h, leaf, Inherited(root, caps)), s.world, Pow2(n));
      var (after, r) := Invoke(h, s, TargetAt(leaf, n), Inherited(root, caps), Nested(leaf, n));
      && 1 <= runs <= Pow2(n) && (r.Ok? ==> runs == Pow2(n))
      && after.world == w && r == result
      && after.invoked == s.invoked + Trace(leaf, n, runs)
      && Count(after.invoked, leaf.path) == Count(s.invoked, leaf.path) + runs
  {
    DoublesRepeat(h, leaf, root, caps, n, s);
    var runs := Times(LeafStep(h, leaf, Inherited(root, caps)), s.world, Pow2(n)).2;
    TimesCounts(LeafStep(h, leaf, Inherited(root, caps)), s.world, Pow2(n));
    CallsCount(leaf.doublePath, leaf.path, n, runs);
    CountConcat(s.invoked, Trace(leaf, n, runs), leaf.path);
  }

  // ----- A leaf whose first run fails -----

  function Repeat(p: string, n: nat): seq<string> {
    if n == 0 then [] else [p] + Repeat(p, n - 1)
  }

  lemma {:induction false} CallsOfOne(outer: string, x: string, n: nat)
    ensures Calls(outer, x, n, 1) == Repeat(outer, n) + [x]
  {
    if n > 0 {
      CallsOfOne(outer, x, n - 1);
    }
  }

  lemma TimesStopsAtFirst(step: World -> (World, Outcome), w: World, k: nat)
    requires k > 0 && step(w).1.Err?
    ensures Times(step, w, k) == (step(w).0, step(w).1, 1)
  {
  }

  lemma LeafStepIsRun(h: Host, leaf: Leaf, root: Path, caps: Capabilities, s: HostState)
    requires LeafOf(h, leaf) && RootOk(s.world, root)
    ensures
      var (after, r) := Invoke(h, s, leaf.path, Inherited(root, caps), leaf.payload);
      LeafStep(h, leaf, Inherited(root, caps))(s.world) == (after.world, r)
  {
    LeafIgnoresTrace(h, leaf, Inherited(root, caps), s, [], root);
  }

  /** If the leaf fails, the doubles stop at that first run: one path down, one failure, its world and its error. */
  lemma NestedDoublesFail(h: Host, leaf: Leaf, root: Path, caps: Capabilities, n: nat, s: HostState)
    requires LeafOf(h, leaf) && RootOk(s.world, root)
    requires Invoke(h, s, leaf.path, Inherited(root, caps), leaf.payload).1.Err?
    ensures
      var (failed, error) := Invoke(h, s, leaf.path, Inherited(root, caps), leaf.payload);
      Invoke(h, s, TargetAt(leaf, n), Inherited(root, caps), Nested(leaf, n)) ==
      (HostState(failed.world, s.invoked + (Repeat(leaf.doublePath, n) + [leaf.path])), error)
  {
    DoublesRepeat(h, leaf, root, caps, n, s);
    LeafStepIsRun(h, leaf, root, caps, s);
    TimesStopsAtFirst(LeafStep(h, leaf, Inherited(root, caps)), s.world, Pow2(n));
    CallsOfOne(leaf.doublePath, leaf.path, n);
  }

  // ----- Writes -----

  /** Two steps of which the second fails: any number above one stops there. */
  lemma TimesStopsAtSecond(step: World -> (World, Outcome), w: World, k: nat)
    requires k > 1 && step(w).1.Ok? && step(step(w).0).1.Err?
    ensures Times(step, w, k) == (step(step(w).0).0, step(step(w).0).1, 2)
  {
  }

  lemma Pow2AboveOne(n: nat)
    requires n > 0
    ensures Pow2(n) > 1
  {
  }

  /**
   * A write that may not be repeated, under any doubles: exactly two runs of it,
   * the files of one write, and the second run's error.
   */
  lemma DoubledWriteStopsAtSecond(h: Host, leaf: Leaf, root: Path, caps: Capabilities, n: nat, s: HostState)
    requires n > 0 && Wrote(h, leaf, root, caps, s)
    requires !MayWriteAgain(h, s.world.tree, root, caps, leaf.payload)
    ensures
      var once := Invoke(h, s, leaf.path, Inherited(root, caps), leaf.payload).0;
      var (again, error) := Invoke(h, once, leaf.path, Inherited(root, caps), leaf.payload);
      var (after, r) := Invoke(h, s, TargetAt(leaf, n), Inherited(root, caps), Nested(leaf, n));
      && error.Err? && r == error && after.world == again.world
      && after.world.tree == once.world.tree
      && Count(after.invoked, leaf.path) == Count(s.invoked, leaf.path) + 2
  {
    var params := Inherited(root, caps);
    var once := Invoke(h, s, leaf.path, params, leaf.payload).0;
    SecondWrite(h, leaf, root, caps, s, once);
    LeafStepIsRun(h, leaf, root, caps, s);
    LeafStepIsRun(h, leaf, root, caps, once);
    NestedDoublesAreRuns(h, leaf, root, caps, n, s);
    Pow2AboveOne(n);
    TimesStopsAtSecond(LeafStep(h, leaf, params), s.world, Pow2(n));
  }

  /**
   * Writing under `n` doubles runs the write 2^n times and leaves the files and the outcome of one write,
   * if and only if the request may be written again.
   */
  lemma DoubledWriteIsTransparentIff(h: Host, leaf: Leaf, root: Path, caps: Capabilities, n: nat, s: HostState)
    requires n > 0 && Wrote(h, leaf, root, caps, s)
    ensures
      var (once, r) := Invoke(h, s, leaf.path, Inherited(root, caps), leaf.payload);
      RunsTo(h, leaf, Inherited(root, caps), n, s, once.world.tree, r.value) <==>
      MayWriteAgain(h, s.world.tree, root, caps, leaf.payload)
  {
    var (once, r) := Invoke(h, s, leaf.path, Inherited(root, caps), leaf.payload);
    if MayWriteAgain(h, s.world.tree, root, caps, leaf.payload) {
      SecondWrite(h, leaf, root, caps, s, once);
      WriteIsSteady(h, leaf, root, caps, s);
      NestedDoubles(h, leaf, root, caps, s.world.tree, once.world.tree, r.value, n);
    } else {
      DoubledWriteStopsAtSecond(h, leaf, root, caps, n, s);
    }
  }

  // ----- A write that may not be repeated -----

  /** The runtime's envelope, and everything else allowed; `write_file` and `double` installed. */
  function OpenHost(): Host {
    var enveloped := Register(EMPTY_VIEW, Registration(true, InboundSlot, CAPABILITY_ENVELOPE_POLICY));
    Host(Register(enveloped, Registration(false, OutboundSlot, ALLOW_ALL_POLICY)),
         map["double" := (EMPTY, Double), "write_file" := (Bit(CapFsWrite), WriteFileTool)])
  }

  lemma OpenHostAllows(ctx: PolicyContext, a: Action)
    requires Contains(ctx.capabilities, Required(a))
    ensures Allowed(OpenHost().policies, ctx, a)
  {
    var v, t := OpenHost().policies, TypeOf(a);
    var gate, last := Registered(1, CAPABILITY_ENVELOPE_POLICY), Registered(2, ALLOW_ALL_POLICY);
    assert v.inbound == [gate] && v.outbound == [last] && v.ActionPolicies(t) == [];
    assert Entries(v, t) == [Entry(Inbound, gate), Entry(Outbound, last)];
    assert Entries(v, t)[1..] == [Entry(Outbound, last)];
    assert Judge(Entry(Inbound, gate), ctx, a) == EnvelopeGrant(ctx, a);
    assert Judge(Entry(Outbound, last), ctx, a).decision == Allow;
    assert Report([Entry(Outbound, last)], ctx, a).outcome.AllowedBy?;
  }

  function WriteLeaf(path: string, content: string): Leaf {
    Leaf("double", "write_file", Object(map["path" := Str(path), "content" := Str(content)]))
  }

  /** A host with the runtime's envelope on which a payload with this path and content may be written there. */
  ghost predicate WritesAt(
    h: Host, leaf: Leaf, root: Path, caps: Capabilities, path: string, p: Path, content: string)
  {
    && LeafOf(h, leaf) && h.tools[leaf.path].1 == WriteFileTool && Enveloped(h.policies)
    && GetStr(leaf.payload, "path") == Some(path) && GetStr(leaf.payload, "content") == Some(content)
    && MayWrite(h, root, caps, p, content)
  }

  lemma SomeHostWrites(root: Path, path: string, p: Path, content: string) returns (h: Host, leaf: Leaf)
    ensures WritesAt(h, leaf, root, Bit(CapFsWrite), path, p, content)
  {
    h, leaf := OpenHost(), WriteLeaf(path, content);
    ContainsReflexive(Bit(CapFsWrite));
    OpenHostAllows(PolicyContext(Bit(CapFsWrite), root), FsAction(p));
    OpenHostAllows(PolicyContext(Bit(CapFsWrite), root), FsWriteAction(p, content));
    var gate := h.policies.inbound[0];
    assert gate in h.policies.inbound && IsEnvelope(gate.policy);
  }

  /** An allowed write after which its request no longer resolves. */
  lemma WroteOnlyOnce(
      h: Host, leaf: Leaf, root: Path, caps: Capabilities, s: HostState, path: RawPath, p: Path, content: string,
      after: Tree)
    requires LeafOf(h, leaf) && h.tools[leaf.path].1 == WriteFileTool && RootOk(s.world, root)
    requires GetStr(leaf.payload, "path").Some? && path == ParsePath(GetStr(leaf.payload, "path").value)
    requires GetStr(leaf.payload, "content") == Some(content)
    requires ResolveWrite(s.world.tree, root, path) == Ok(p) && MayWrite(h, root, caps, p, content)
    requires WriteFile(s.world.tree, p, content) == Some(after) && ResolveWrite(after, root, path).Err?
    ensures Wrote(h, leaf, root, caps, s) && !MayWriteAgain(h, s.world.tree, root, caps, leaf.payload)
    ensures Invoke(h, s, leaf.path, Inherited(root, caps), leaf.payload).0.world.tree == after
  {
    WriteRun(h, leaf, root, caps, s, path, content);
    WriteAgain(s.world.tree, root, path, content);
  }

  lemma DanglingResolves(t: Tree, w: string, l: string, o: string, content: string) returns (after: Tree)
    requires NameOk(l) && o != w && t == LinkTree(w, l, o)
    ensures after == t[[o] := File(content)] && WellFormed(t) && Canonical(t, [w])
    ensures ResolveWrite(t, [w], ParsePath(l)) == Ok([w, l]) && WriteFile(t, [w, l], content) == Some(after)
    ensures ResolveWrite(after, [w], ParsePath(l)).Err?
  {
    after := t[[o] := File(content)];
    PlainNameParses(l);
    DanglingLinkExample(w, l, o, content);
  }

  /**
   * The failing side happens: on some host with the envelope, a write through a dangling link succeeds once
   * and may not be repeated. Under any doubles it runs twice, leaves the file outside as one write leaves it,
   * and fails as a whole.
   */
  lemma DanglingWriteIsNotRepeated(w: string, l: string, o: string, content: string, n: nat, s: HostState)
    returns (h: Host, leaf: Leaf, caps: Capabilities)
    requires NameOk(l) && o != w && n > 0 && s.world.tree == LinkTree(w, l, o)
    ensures Enveloped(h.policies)
    ensures Wrote(h, leaf, [w], caps, s) && !MayWriteAgain(h, s.world.tree, [w], caps, leaf.payload)
    ensures
      var (after, r) := Invoke(h, s, TargetAt(leaf, n), Inherited([w], caps), Nested(leaf, n));
      && r.Err? && after.world.tree == s.world.tree[[o] := File(content)]
      && Count(after.invoked, leaf.path) == Count(s.invoked, leaf.path) + 2
  {
    caps := Bit(CapFsWrite);
    h, leaf := SomeHostWrites([w], l, [w, l], content);
    var after := DanglingResolves(s.world.tree, w, l, o, content);
    WroteOnlyOnce(h, leaf, [w], caps, s, ParsePath(l), [w, l], content, after);
    DoubledWriteStopsAtSecond(h, leaf, [w], caps, n, s);
  }
}
