/** What the drive loop guarantees whatever the interpreter does. */
module MontyProofs {
  import opened Wrappers
  import opened Contract
  import opened Json
  import opened Invocation
  import opened Builtin
  import opened Bridge
  import opened BridgeProofs
  import opened Monty

  /** The classification of a successful nested outcome this event led to, if any. */
  function SeenIn(tool: MontyTool, round: U64 -> real, e: ReplProgress): Option<OutputClassification> {
    match TurnOf(tool, round, e, Public)
    case Goes(_, _, seen) => seen
    case Ends(_) => None
  }

  lemma TurnIgnoresClassification(tool: MontyTool, round: U64 -> real, e: ReplProgress, c: OutputClassification)
    ensures TurnOf(tool, round, e, c).Goes? ==> TurnOf(tool, round, e, c) == TurnOf(tool, round, e, Public)
    ensures TurnOf(tool, round, e, c).Ends? <==> TurnOf(tool, round, e, Public).Ends?
  {
  }

  /** Above everything seen, and itself the starting value or something seen. */
  ghost predicate IsLeastAbove(
    tool: MontyTool, round: U64 -> real, events: seq<ReplProgress>, start: OutputClassification, c: OutputClassification)
  {
    && Rank(start) <= Rank(c)
    && (forall i :: 0 <= i < |events| && SeenIn(tool, round, events[i]).Some? ==>
          Rank(SeenIn(tool, round, events[i]).value) <= Rank(c))
    && (c == start || exists i :: 0 <= i < |events| && SeenIn(tool, round, events[i]) == Some(c))
  }

  lemma LeastAboveCons(
      tool: MontyTool, round: U64 -> real, events: seq<ReplProgress>, start: OutputClassification, c: OutputClassification)
    requires events != []
    requires IsLeastAbove(tool, round, events[1..], MergeSeen(start, SeenIn(tool, round, events[0])), c)
    ensures IsLeastAbove(tool, round, events, start, c)
  {
    forall i | 0 <= i < |events| && SeenIn(tool, round, events[i]).Some?
      ensures Rank(SeenIn(tool, round, events[i]).value) <= Rank(c)
    {
      if i > 0 { assert events[i] == events[1..][i - 1]; }
    }
    var next := MergeSeen(start, SeenIn(tool, round, events[0]));
    if c != next {
      var j :| 0 <= j < |events[1..]| && SeenIn(tool, round, events[1..][j]) == Some(c);
      assert events[j + 1] == events[1..][j];
    } else if c != start {
      assert SeenIn(tool, round, events[0]) == Some(c);
    }
  }

  /**
   * Whatever the interpreter does, a completed conversation consumed a run of events ending in `Complete`,
   * answered each earlier one exactly once, and returns the least upper bound of the starting classification
   * and every successful nested outcome, converted or not.
   */
  lemma {:induction false} CompletedClassification(
      tool: MontyTool, round: U64 -> real, events: seq<ReplProgress>, sofar: OutputClassification,
      calls: seq<NestedCall>, resumes: seq<Resume>) returns (n: nat)
    requires DriveFrom(tool, round, events, sofar, calls, resumes).result.Completed?
    ensures
      var d := DriveFrom(tool, round, events, sofar, calls, resumes);
      && n < |events| && events[n] == Complete(d.result.value)
      && |d.resumes| == |resumes| + n
      && IsLeastAbove(tool, round, events[..n], sofar, d.result.classification)
  {
    match TurnOf(tool, round, events[0], sofar)
    case Ends(_) => n := 0;
    case Goes(resume, call, seen) =>
      TurnIgnoresClassification(tool, round, events[0], sofar);
      var m := CompletedClassification(
        tool, round, events[1..], MergeSeen(sofar, seen), Added(calls, call), resumes + [resume]);
      n := m + 1;
      assert events[..n][1..] == events[1..][..m];
      var d := DriveFrom(tool, round, events, sofar, calls, resumes);
      LeastAboveCons(tool, round, events[..n], sofar, d.result.classification);
  }

  /** A decoded path of an exposed tool or of the OS tool. */
  ghost predicate KnownTarget(tool: MontyTool, path: string) {
    || (exists name :: name in tool.exposedTools && tool.exposedTools[name] == Str(path))
    || tool.osTool == Str(path)
  }

  /** A known target, the frame's own capabilities, and an object free of integers above the signed range. */
  ghost predicate CallOk(tool: MontyTool, call: NestedCall) {
    call.capabilitiesOverride == None && KnownTarget(tool, call.path) && PayloadOk(call.payload)
  }

  ghost predicate PayloadOk(payload: Value) {
    payload.Object? && Normal(payload)
  }

  lemma WrappedPayloadOk(args: seq<MontyObject>, kwargs: seq<Pair>)
    requires WrappedPayload(args, kwargs).Ok?
    ensures
      var fields := WrappedPayload(args, kwargs).value.fields;
      && PayloadOk(WrappedPayload(args, kwargs).value)
      && fields.Keys == {"args", "kwargs"}
      && MontyToJson(List(args)) == Ok(fields["args"]) && MontyToJson(Dict(kwargs)) == Ok(fields["kwargs"])
  {
    SentIsNormal(List(args));
    SentIsNormal(Dict(kwargs));
  }

  lemma ToolPayloadOk(args: seq<MontyObject>, kwargs: seq<Pair>)
    requires ToolPayload(args, kwargs).Ok?
    ensures PayloadOk(ToolPayload(args, kwargs).value)
  {
    if ToolPayload(args, kwargs) == WrappedPayload(args, kwargs) {
      WrappedPayloadOk(args, kwargs);
    } else {
      SentIsNormal(args[0]);
    }
  }

  lemma OsPayloadOk(name: string, args: seq<MontyObject>, kwargs: seq<Pair>)
    requires OsPayload(name, args, kwargs).Ok?
    ensures PayloadOk(OsPayload(name, args, kwargs).value)
  {
    WrappedPayloadOk(args, kwargs);
  }

  lemma TurnCallsKnownTargets(tool: MontyTool, round: U64 -> real, e: ReplProgress, c: OutputClassification)
    ensures
      var turn := TurnOf(tool, round, e, c);
      turn.Goes? && turn.call.Some? ==> CallOk(tool, turn.call.value)
  {
    match e
    case FunctionCall(name, args, kwargs, _, _) =>
      if ToolPayload(args, kwargs).Ok? { ToolPayloadOk(args, kwargs); }
      if name in tool.exposedTools {
        var path := DecodeToolPath(tool.exposedTools[name]);
        assert path.Ok? ==> tool.exposedTools[name] == Str(path.value);
      }
    case OsCall(name, args, kwargs, _) =>
      if OsPayload(name, args, kwargs).Ok? { OsPayloadOk(name, args, kwargs); }
    case _ =>
  }

  /** Every nested call of every conversation goes to a known target, with the frame's own capabilities and an object. */
  lemma {:induction false} NestedCallsAreConfined(
      tool: MontyTool, round: U64 -> real, events: seq<ReplProgress>, sofar: OutputClassification,
      calls: seq<NestedCall>, resumes: seq<Resume>)
    requires forall call :: call in calls ==> CallOk(tool, call)
    ensures forall call :: call in DriveFrom(tool, round, events, sofar, calls, resumes).calls ==> CallOk(tool, call)
  {
    if events != [] {
      TurnCallsKnownTargets(tool, round, events[0], sofar);
      match TurnOf(tool, round, events[0], sofar)
      case Ends(_) =>
      case Goes(resume, call, seen) =>
        NestedCallsAreConfined(
          tool, round, events[1..], MergeSeen(sofar, seen), Added(calls, call), resumes + [resume]);
    }
  }

  /** The nested call an event asks for: an exposed function its own tool, an operating-system call the OS tool. */
  function CallOf(tool: MontyTool, e: ReplProgress): Option<NestedCall> {
    match e
    case FunctionCall(name, args, kwargs, methodCall, _) =>
      if !methodCall && name in tool.exposedTools && tool.exposedTools[name].Str? && ToolPayload(args, kwargs).Ok? then
        Some(NestedCall(tool.exposedTools[name].s, None, ToolPayload(args, kwargs).value))
      else None
    case OsCall(name, args, kwargs, _) =>
      if tool.osTool.Str? && OsPayload(name, args, kwargs).Ok? then
        Some(NestedCall(tool.osTool.s, None, OsPayload(name, args, kwargs).value))
      else None
    case _ => None
  }

  function CallsOf(tool: MontyTool, events: seq<ReplProgress>): seq<NestedCall> {
    if events == [] then [] else Added([], CallOf(tool, events[0])) + CallsOf(tool, events[1..])
  }

  lemma TurnAsksItsCall(tool: MontyTool, round: U64 -> real, e: ReplProgress, c: OutputClassification)
    ensures TurnOf(tool, round, e, c).Goes? ==> TurnOf(tool, round, e, c).call == CallOf(tool, e)
  {
  }

  lemma AddedFirst<T>(xs: seq<T>, x: Option<T>, rest: seq<T>)
    ensures Added(xs, x) + rest == xs + (Added([], x) + rest)
  {
  }

  /** The calls of a conversation are exactly those its events ask for, in their order, up to the event that ends it. */
  lemma {:induction false} CallsFollowEvents(
      tool: MontyTool, round: U64 -> real, events: seq<ReplProgress>, sofar: OutputClassification,
      calls: seq<NestedCall>, resumes: seq<Resume>) returns (n: nat)
    ensures
      var d := DriveFrom(tool, round, events, sofar, calls, resumes);
      && n <= |events| && (d.result.Unfinished? <==> n == |events|)
      && d.calls == calls + CallsOf(tool, events[..n]) && |d.resumes| == |resumes| + n
  {
    n := 0;
    if events == [] {
      assert calls + [] == calls;
    } else {
      match TurnOf(tool, round, events[0], sofar)
      case Ends(_) =>
        assert calls + [] == calls;
      case Goes(resume, call, seen) =>
        TurnAsksItsCall(tool, round, events[0], sofar);
        var m := CallsFollowEvents(
          tool, round, events[1..], MergeSeen(sofar, seen), Added(calls, call), resumes + [resume]);
        n := m + 1;
        assert events[..n][1..] == events[1..][..m];
        AddedFirst(calls, call, CallsOf(tool, events[1..][..m]));
    }
  }

  // ----- The classification without ranks -----

  /** A nested call this event asks for was answered with success and this classification. */
  ghost predicate SucceededAs(tool: MontyTool, e: ReplProgress, c: OutputClassification) {
    && CallOf(tool, e).Some?
    && (match e
        case FunctionCall(_, _, _, _, reply) => reply.Ok? && reply.value.classification == c
        case OsCall(_, _, _, reply) => reply.Ok? && reply.value.classification == c
        case _ => false)
  }

  ghost predicate SomeSucceeded(tool: MontyTool, events: seq<ReplProgress>, c: OutputClassification) {
    exists i :: 0 <= i < |events| && SucceededAs(tool, events[i], c)
  }

  lemma SeenIsSuccess(tool: MontyTool, round: U64 -> real, e: ReplProgress, c: OutputClassification)
    ensures SeenIn(tool, round, e) == Some(c) <==> SucceededAs(tool, e, c)
  {
  }

  /**
   * A completed conversation is Sensitive exactly when some nested call succeeded with Sensitive,
   * WorkspaceLocal exactly when none did and some succeeded with WorkspaceLocal, and Public otherwise.
   */
  lemma CompletedIsMostSensitive(tool: MontyTool, round: U64 -> real, events: seq<ReplProgress>) returns (n: nat)
    requires DriveFrom(tool, round, events, Public, [], []).result.Completed?
    ensures
      var result := DriveFrom(tool, round, events, Public, [], []).result;
      && n < |events| && events[n] == Complete(result.value)
      && result.classification ==
         if SomeSucceeded(tool, events[..n], Sensitive) then Sensitive
         else if SomeSucceeded(tool, events[..n], WorkspaceLocal) then WorkspaceLocal
         else Public
  {
    n := CompletedClassification(tool, round, events, Public, [], []);
    var c := DriveFrom(tool, round, events, Public, [], []).result.classification;
    LeastAboveIsMostSensitive(tool, round, events[..n], c);
  }

  lemma LeastAboveIsMostSensitive(
      tool: MontyTool, round: U64 -> real, events: seq<ReplProgress>, c: OutputClassification)
    requires IsLeastAbove(tool, round, events, Public, c)
    ensures c == if SomeSucceeded(tool, events, Sensitive) then Sensitive
                 else if SomeSucceeded(tool, events, WorkspaceLocal) then WorkspaceLocal
                 else Public
  {
    forall i, d | 0 <= i < |events|
      ensures SeenIn(tool, round, events[i]) == Some(d) <==> SucceededAs(tool, events[i], d)
    {
      SeenIsSuccess(tool, round, events[i], d);
    }
    if SomeSucceeded(tool, events, Sensitive) {
      var i :| 0 <= i < |events| && SucceededAs(tool, events[i], Sensitive);
      assert SeenIn(tool, round, events[i]) == Some(Sensitive);
    } else if SomeSucceeded(tool, events, WorkspaceLocal) {
      var i :| 0 <= i < |events| && SucceededAs(tool, events[i], WorkspaceLocal);
      assert SeenIn(tool, round, events[i]) == Some(WorkspaceLocal);
    }
  }

  // ----- Payloads -----

  /** A lone dictionary, or anything else whose JSON form is an object, is the payload itself. */
  lemma LoneObjectIsPayload(arg: MontyObject)
    ensures MontyToJson(arg).Ok? && MontyToJson(arg).value.Object? ==> ToolPayload([arg], []) == MontyToJson(arg)
  {
  }

  /** Otherwise the arguments are wrapped; there is no payload exactly when one of them does not convert. */
  lemma OtherwiseWrapped(args: seq<MontyObject>, kwargs: seq<Pair>)
    requires !(kwargs == [] && |args| == 1 && MontyToJson(args[0]).Ok? && MontyToJson(args[0]).value.Object?)
    ensures ToolPayload(args, kwargs).Ok? <==> MontyToJson(List(args)).Ok? && MontyToJson(Dict(kwargs)).Ok?
    ensures ToolPayload(args, kwargs).Ok? ==>
      ToolPayload(args, kwargs).value ==
      Object(map["args" := MontyToJson(List(args)).value, "kwargs" := MontyToJson(Dict(kwargs)).value])
  {
    if kwargs == [] && |args| == 1 {
      assert args == [args[0]];
      SequencesConvert(List(args), args);
    }
  }

  /** An operating-system call's payload has exactly its own name and its converted arguments. */
  lemma OsPayloadFields(name: string, args: seq<MontyObject>, kwargs: seq<Pair>)
    ensures OsPayload(name, args, kwargs).Ok? <==> MontyToJson(List(args)).Ok? && MontyToJson(Dict(kwargs)).Ok?
    ensures OsPayload(name, args, kwargs).Ok? ==>
      OsPayload(name, args, kwargs).value ==
      Object(map["function" := Str(name), "args" := MontyToJson(List(args)).value,
                 "kwargs" := MontyToJson(Dict(kwargs)).value])
  {
  }

  // ----- What goes back into the interpreter -----

  /** A failure is raised; a success is returned as the value that converts back to its normalized payload. */
  ghost predicate Answers(round: U64 -> real, reply: Reply, resume: Resume) {
    match reply
    case Err(_) => resume == Raised
    case Ok(outcome) => resume.Returned? && MontyToJson(resume.value) == Ok(Normalize(round, outcome.payload))
  }

  /** The events that end a conversation. */
  ghost predicate EndsAt(e: ReplProgress) {
    match e
    case Complete(_) => true
    case ResolveFutures => true
    case StartError(_) => true
    case OsCall(_, args, kwargs, _) => MontyToJson(List(args)).Err? || MontyToJson(Dict(kwargs)).Err?
    case _ => false
  }

  /** What is sent back for an event that does not end the conversation. */
  ghost predicate ResumesWith(tool: MontyTool, round: U64 -> real, e: ReplProgress, resume: Resume) {
    match e
    case NameLookup(name) => resume == if name in tool.exposedTools then FunctionName(name) else Undefined
    case FunctionCall(name, _, _, methodCall, reply) =>
      if methodCall || name !in tool.exposedTools then resume == NotFound(name)
      else if CallOf(tool, e) == None then resume == Raised
      else Answers(round, reply, resume)
    case OsCall(_, _, _, reply) => if CallOf(tool, e) == None then resume == Raised else Answers(round, reply, resume)
    case _ => false
  }

  lemma TurnResumes(tool: MontyTool, round: U64 -> real, e: ReplProgress, c: OutputClassification)
    ensures TurnOf(tool, round, e, c).Ends? <==> EndsAt(e)
    ensures TurnOf(tool, round, e, c).Goes? ==> ResumesWith(tool, round, e, TurnOf(tool, round, e, c).resume)
    ensures TurnOf(tool, round, e, c).Ends? ==>
      if e.Complete? then TurnOf(tool, round, e, c).result == Completed(e.value, c)
      else TurnOf(tool, round, e, c).result.Failed?
  {
    match e
    case FunctionCall(_, _, _, _, Ok(outcome)) => ThereAndBack(round, outcome.payload);
    case OsCall(_, _, _, Ok(outcome)) => ThereAndBack(round, outcome.payload);
    case _ =>
  }

  /** One resume for each event before the first ending one, which decides the result. */
  ghost predicate Conversed(
    tool: MontyTool, round: U64 -> real, events: seq<ReplProgress>, sent: seq<Resume>, result: DriveResult)
  {
    if events == [] then sent == [] && result.Unfinished?
    else if EndsAt(events[0]) then sent == [] && EndsAs(events[0], result)
    else sent != [] && ResumesWith(tool, round, events[0], sent[0]) &&
         Conversed(tool, round, events[1..], sent[1..], result)
  }

  /** A `Complete` ends the conversation with its own value, any other ending event with a failure. */
  ghost predicate EndsAs(e: ReplProgress, result: DriveResult) {
    if e.Complete? then result.Completed? && result.value == e.value else result.Failed?
  }

  lemma ConversedCons(
      tool: MontyTool, round: U64 -> real, events: seq<ReplProgress>, resume: Resume, sent: seq<Resume>,
      result: DriveResult)
    requires events != [] && !EndsAt(events[0]) && ResumesWith(tool, round, events[0], resume)
    requires Conversed(tool, round, events[1..], sent, result)
    ensures Conversed(tool, round, events, [resume] + sent, result)
  {
    assert ([resume] + sent)[1..] == sent;
  }

  lemma DriveGoes(
      tool: MontyTool, round: U64 -> real, events: seq<ReplProgress>, sofar: OutputClassification,
      calls: seq<NestedCall>, resumes: seq<Resume>)
    returns (resume: Resume, sofar': OutputClassification, calls': seq<NestedCall>)
    requires events != [] && !EndsAt(events[0])
    ensures ResumesWith(tool, round, events[0], resume)
    ensures DriveFrom(tool, round, events, sofar, calls, resumes) ==
            DriveFrom(tool, round, events[1..], sofar', calls', resumes + [resume])
  {
    TurnResumes(tool, round, events[0], sofar);
    var turn := TurnOf(tool, round, events[0], sofar);
    resume, sofar', calls' := turn.resume, MergeSeen(sofar, turn.seen), Added(calls, turn.call);
  }

  lemma AppendedFirst<T>(xs: seq<T>, x: T, rest: seq<T>)
    ensures xs + [x] + rest == xs + ([x] + rest)
  {
  }

  /**
   * The conversation ends at its first ending event: completed there if that is `Complete`, failed otherwise.
   * Every event before it was resumed, each according to itself and its own reply.
   */
  lemma {:induction false} ResumesFollowEvents(
      tool: MontyTool, round: U64 -> real, events: seq<ReplProgress>, sofar: OutputClassification,
      calls: seq<NestedCall>, resumes: seq<Resume>) returns (sent: seq<Resume>)
    ensures
      var d := DriveFrom(tool, round, events, sofar, calls, resumes);
      d.resumes == resumes + sent && Conversed(tool, round, events, sent, d.result)
    decreases events
  {
    sent := [];
    if events == [] || EndsAt(events[0]) {
      if events != [] { TurnResumes(tool, round, events[0], sofar); }
      assert resumes + [] == resumes;
    } else {
      var resume, sofar', calls' := DriveGoes(tool, round, events, sofar, calls, resumes);
      sent := ResumesFollowEvents(tool, round, events[1..], sofar', calls', resumes + [resume]);
      ConversedCons(
        tool, round, events, resume, sent, DriveFrom(tool, round, events, sofar, calls, resumes).result);
      AppendedFirst(resumes, resume, sent);
      sent := [resume] + sent;
    }
  }

  /** A value without a JSON form makes the tool fail after its session was saved. */
  method FailedResultCanHaveSaved(tool: MontyTool, round: U64 -> real, sessionId: string, bytes: Bytes)
    returns (r: Option<Result<ToolOutcome, ToolError>>, ops: seq<SessionOp>)
    ensures r.Some? && r.value.Err?
    ensures ops == [Load(sessionId), Save(sessionId, bytes)]
  {
    var env := Environment(Ok(None), true, [Complete(FloatValue(NonFinite))], Ok(bytes), Ok(()));
    r, ops := Execute(tool, round, sessionId, env);
  }
}
