/** The request state machine: automatic routing and restoring of the tool list, and the
    one-shot recovery prompt after a failed execution. */
module Session {
  import opened Wrappers

  // --- the recovery record of a request ---

  datatype FailureClass = MissingAwait | AsyncWrapperIterated
  datatype Terminal = Succeeded | FailedWithoutRecovery | FailedAfterRecovery
  datatype ToolPath = ViaCodeExecution | ViaDirect

  datatype Record = Record(
    autoRouted: bool, firstToolPath: Option<ToolPath>, routedToCodeExecution: bool, attempts: nat,
    recoveryAttempted: bool, failureClass: Option<FailureClass>, terminal: Option<Terminal>)

  const NEW_RECORD := Record(false, None, false, 0, false, None, None)

  /** The settings that matter here: autoRecover, and autoRecoverMaxAttempts with its default. */
  datatype Settings = Settings(autoRecover: bool, maxAttempts: Option<int>)

  predicate CanRecover(settings: Settings, r: Record) {
    settings.autoRecover && settings.maxAttempts.GetOr(1) > 0 && r.attempts > 0 && !r.recoveryAttempted
  }

  function NoteAttempt(r: Record): Record {
    r.(routedToCodeExecution := true, attempts := r.attempts + 1,
       firstToolPath := if r.firstToolPath.None? then Some(ViaCodeExecution) else r.firstToolPath)
  }

  function NoteFailure(r: Record): Record {
    r.(terminal := Some(if r.recoveryAttempted then FailedAfterRecovery else FailedWithoutRecovery))
  }

  function Arm(r: Record, failure: FailureClass): Record {
    r.(recoveryAttempted := true, failureClass := Some(failure))
  }

  // --- the session ---

  /** A session with every record ever created. An execution holds on to the record that was
      current when it started; records are known by their position in order of creation. */
  datatype State = State(
    records: seq<Record>, current: Option<nat>, pending: Option<FailureClass>, recoveryAllowed: bool,
    saved: Option<seq<string>>, active: seq<string>, running: map<nat, nat>, started: nat, injected: nat)

  const START := State([], None, None, true, None, [], map[], 0, 0)

  const CODE_EXECUTION := "code_execution"

  /** A prompt, reduced to what the keyword heuristics and the settings say about it. `route` says
      that automatic routing is on, wanted for this prompt, and that the code_execution tool is there. */
  datatype Prompt = Prompt(isMutation: bool, route: bool, routable: set<string>)

  datatype Event =
    | BeforeAgentStart(prompt: Option<Prompt>)
    | ExecutionStarts
    | ExecutionSucceeds(execution: nat)
    | ExecutionFails(execution: nat, isPythonError: bool, failure: Option<FailureClass>)
    | ContextRequested
    | AgentEnds
    | HostSetsTools(tools: seq<string>)

  function Without(active: seq<string>, routable: set<string>): (rest: seq<string>)
    ensures forall name :: name in rest <==> name in active && name !in routable
  {
    if active == [] then []
    else Without(active[..|active| - 1], routable) + (if active[|active| - 1] in routable then [] else [active[|active| - 1]])
  }

  function Route(active: seq<string>, routable: set<string>): seq<string> {
    var next := Without(active, routable);
    if CODE_EXECUTION in next then next else next + [CODE_EXECUTION]
  }

  function WithNewRecord(s: State): State {
    s.(records := s.records + [NEW_RECORD], current := Some(|s.records|))
  }

  /** getRequestRecoveryState: the current record, created if there is none. */
  function WithRecord(s: State): State {
    if s.current.Some? then s else WithNewRecord(s)
  }

  function ApplyRouting(s: State, p: Prompt): State
    requires s.current.Some? && s.current.value < |s.records|
  {
    if !p.route then s
    else
      var noted := s.(records := s.records[s.current.value := s.records[s.current.value].(autoRouted := true)]);
      var next := Route(s.active, p.routable);
      if next == s.active then noted else noted.(saved := Some(s.active), active := next)
  }

  predicate Wf(s: State) {
    && (s.current.Some? ==> s.current.value < |s.records|)
    && (forall k <- s.running :: s.running[k] < |s.records| && k < s.started)
  }

  /** A classified Python failure that may arm the recovery of its own record. */
  predicate Arms(settings: Settings, s: State, e: Event)
    requires Wf(s)
  {
    e.ExecutionFails? && e.execution in s.running && e.isPythonError && e.failure.Some?
    && s.recoveryAllowed && CanRecover(settings, s.records[s.running[e.execution]])
  }

  function Fail(settings: Settings, s: State, e: Event): State
    requires Wf(s) && e.ExecutionFails? && e.execution in s.running
  {
    var k := s.running[e.execution];
    var ended := s.(running := s.running - {e.execution});
    if Arms(settings, s, e)
    then ended.(pending := e.failure, records := s.records[k := NoteFailure(Arm(s.records[k], e.failure.value))])
    else ended.(records := s.records[k := NoteFailure(s.records[k])])
  }

  function Begin(s: State, prompt: Option<Prompt>): State {
    var begun := WithNewRecord(s.(pending := None, recoveryAllowed := prompt.None? || !prompt.value.isMutation));
    if prompt.None? then begun else ApplyRouting(begun, prompt.value)
  }

  function Start(s: State): State
    requires Wf(s)
  {
    StartOn(WithRecord(s))
  }

  function StartOn(s: State): State
    requires Wf(s) && s.current.Some?
  {
    var k := s.current.value;
    s.(records := s.records[k := NoteAttempt(s.records[k])], running := s.running[s.started := k], started := s.started + 1)
  }

  function Step(settings: Settings, s: State, e: Event): (next: State)
    requires Wf(s)
    ensures Wf(next)
  {
    match e
    case BeforeAgentStart(prompt) => Begin(s, prompt)
    case ExecutionStarts => Start(s)
    case ExecutionSucceeds(x) =>
      if x !in s.running then s
      else
        var k := s.running[x];
        s.(records := s.records[k := s.records[k].(terminal := Some(Succeeded))], running := s.running - {x})
    case ExecutionFails(x, _, _) => if x !in s.running then s else Fail(settings, s, e)
    case ContextRequested => if s.pending.None? then s else s.(pending := None, injected := s.injected + 1)
    case AgentEnds =>
      s.(active := s.saved.GetOr(s.active), saved := None, pending := None, recoveryAllowed := true, current := None)
    case HostSetsTools(tools) => s.(active := tools)
  }

  function Run(settings: Settings, s: State, events: seq<Event>): (end: State)
    requires Wf(s)
    ensures Wf(end)
  {
    if events == [] then s
    else Step(settings, Run(settings, s, events[..|events| - 1]), events[|events| - 1])
  }

  // --- every record, over every run ---

  predicate RecordOk(r: Record) {
    && (r.failureClass.Some? <==> r.recoveryAttempted)
    && (r.routedToCodeExecution <==> r.attempts > 0)
    && r.firstToolPath == (if r.attempts > 0 then Some(ViaCodeExecution) else None)
    && (r.recoveryAttempted ==> r.attempts > 0 && (r.terminal == Some(Succeeded) || r.terminal == Some(FailedAfterRecovery)))
    && (!r.recoveryAttempted ==> r.terminal != Some(FailedAfterRecovery))
  }

  function Armed(records: seq<Record>): (n: nat)
    ensures n <= |records|
  {
    if records == [] then 0
    else Armed(records[..|records| - 1]) + if records[|records| - 1].recoveryAttempted then 1 else 0
  }

  lemma {:induction false} ArmedUpdate(records: seq<Record>, k: nat, r: Record)
    requires k < |records|
    ensures Armed(records[k := r]) == Armed(records) + (if r.recoveryAttempted then 1 else 0)
                                                     - (if records[k].recoveryAttempted then 1 else 0)
  {
    var last := |records| - 1;
    if k == last {
      assert records[k := r][..last] == records[..last];
    } else {
      assert records[k := r][..last] == records[..last][k := r];
      ArmedUpdate(records[..last], k, r);
    }
  }

  lemma ArmedAppend(records: seq<Record>)
    ensures Armed(records + [NEW_RECORD]) == Armed(records)
  {
    assert (records + [NEW_RECORD])[..|records|] == records;
  }

  predicate Inv(s: State) {
    && Wf(s)
    && (forall i :: 0 <= i < |s.records| ==> RecordOk(s.records[i]))
    && (forall k <- s.running :: s.records[s.running[k]].attempts > 0)
    && s.injected + (if s.pending.Some? then 1 else 0) <= Armed(s.records)
  }

  /** Rewriting one record keeps the invariant if it stays consistent and, when it becomes
      armed, a prompt becomes pending. */
  lemma UpdateKeepsInv(s: State, k: nat, r: Record, pending: Option<FailureClass>)
    requires Inv(s) && k < |s.records| && RecordOk(r) && r.attempts >= s.records[k].attempts
    requires if s.records[k].recoveryAttempted then r.recoveryAttempted && pending == s.pending
             else pending == if r.recoveryAttempted then Some(r.failureClass.value) else s.pending
    ensures Inv(s.(records := s.records[k := r], pending := pending))
  {
    ArmedUpdate(s.records, k, r);
  }

  lemma AppendKeepsInv(s: State)
    requires Inv(s)
    ensures Inv(WithNewRecord(s))
  {
    ArmedAppend(s.records);
  }

  lemma RoutingKeepsInv(s: State, p: Prompt)
    requires Inv(s) && s.current.Some?
    ensures Inv(ApplyRouting(s, p))
  {
    hide Armed, Route;
    var k := s.current.value;
    UpdateKeepsInv(s, k, s.records[k].(autoRouted := true), s.pending);
  }

  lemma BeginKeepsInv(s: State, prompt: Option<Prompt>)
    requires Inv(s)
    ensures Inv(Begin(s, prompt))
  {
    hide Armed, Route;
    var cleared := s.(pending := None, recoveryAllowed := prompt.None? || !prompt.value.isMutation);
    AppendKeepsInv(cleared);
    if prompt.Some? { RoutingKeepsInv(WithNewRecord(cleared), prompt.value); }
  }

  lemma StartKeepsInv(s: State)
    requires Inv(s)
    ensures Inv(Start(s))
  {
    hide Armed, StartOn;
    AppendKeepsInv(s);
    StartOnKeepsInv(WithRecord(s));
  }

  lemma StartOnKeepsInv(s: State)
    requires Inv(s) && s.current.Some?
    ensures Inv(StartOn(s))
  {
    hide Armed;
    var k := s.current.value;
    UpdateKeepsInv(s, k, NoteAttempt(s.records[k]), s.pending);
  }

  lemma FailKeepsInv(settings: Settings, s: State, e: Event)
    requires Inv(s) && e.ExecutionFails? && e.execution in s.running
    ensures Inv(Fail(settings, s, e))
  {
    hide Armed;
    var k := s.running[e.execution];
    if Arms(settings, s, e) {
      UpdateKeepsInv(s, k, NoteFailure(Arm(s.records[k], e.failure.value)), e.failure);
    } else {
      UpdateKeepsInv(s, k, NoteFailure(s.records[k]), s.pending);
    }
  }

  lemma StepKeepsInv(settings: Settings, s: State, e: Event)
    requires Inv(s)
    ensures Inv(Step(settings, s, e))
  {
    hide Armed, Fail, Start, Begin;
    match e {
      case BeforeAgentStart(prompt) => BeginKeepsInv(s, prompt);
      case ExecutionStarts => StartKeepsInv(s);
      case ExecutionSucceeds(x) =>
        if x in s.running {
          var k := s.running[x];
          UpdateKeepsInv(s, k, s.records[k].(terminal := Some(Succeeded)), s.pending);
        }
      case ExecutionFails(x, _, _) => if x in s.running { FailKeepsInv(settings, s, e); }
      case _ =>
    }
  }

  lemma {:induction false} RunKeepsInv(settings: Settings, s: State, events: seq<Event>)
    requires Inv(s)
    ensures Inv(Run(settings, s, events))
  {
    if events != [] {
      RunKeepsInv(settings, s, events[..|events| - 1]);
      StepKeepsInv(settings, Run(settings, s, events[..|events| - 1]), events[|events| - 1]);
    }
  }

  /** Over any event sequence the recovery messages injected never exceed the records armed, nor
      the records created; and what each record says about its failure is consistent. */
  lemma InjectionsNeverExceedRecords(settings: Settings, events: seq<Event>)
    ensures var end := Run(settings, START, events);
      && end.injected <= Armed(end.records) <= |end.records|
      && forall i :: 0 <= i < |end.records| ==> RecordOk(end.records[i])
  {
    RunKeepsInv(settings, START, events);
  }

  // --- one request ---

  predicate WithinRequest(events: seq<Event>) {
    forall e <- events :: !e.BeforeAgentStart? && !e.AgentEnds?
  }

  /** The k-th event arms a recovery. */
  predicate ArmsAt(settings: Settings, s: State, events: seq<Event>, k: nat)
    requires Wf(s) && k < |events|
  {
    Arms(settings, Run(settings, s, events[..k]), events[k])
  }

  ghost predicate SomeArms(settings: Settings, s: State, events: seq<Event>)
    requires Wf(s)
  {
    exists i :: 0 <= i < |events| && ArmsAt(settings, s, events, i)
  }

  ghost predicate ArmsThenContext(settings: Settings, s: State, events: seq<Event>)
    requires Wf(s)
  {
    exists i, j :: 0 <= i < j < |events| && ArmsAt(settings, s, events, i) && events[j].ContextRequested?
  }

  lemma ArmsGrow(settings: Settings, s: State, events: seq<Event>, e: Event)
    requires Wf(s)
    ensures SomeArms(settings, s, events + [e]) <==> SomeArms(settings, s, events) || Arms(settings, Run(settings, s, events), e)
    ensures ArmsThenContext(settings, s, events + [e])
            <==> ArmsThenContext(settings, s, events) || (SomeArms(settings, s, events) && e.ContextRequested?)
  {
    hide Arms, Run;
    var longer := events + [e];
    var n := |events|;
    assert longer[..n] == events && longer[n] == e;
    forall i | 0 <= i < n ensures ArmsAt(settings, s, longer, i) == ArmsAt(settings, s, events, i) {
      assert longer[..i] == events[..i] && longer[i] == events[i];
    }
    assert ArmsAt(settings, s, longer, n) == Arms(settings, Run(settings, s, events), e);
    if i, j :| 0 <= i < j < |longer| && ArmsAt(settings, s, longer, i) && longer[j].ContextRequested? {
      assert ArmsAt(settings, s, events, i);
      if j < n { assert events[j].ContextRequested?; }
    }
    if i, j :| 0 <= i < j < n && ArmsAt(settings, s, events, i) && events[j].ContextRequested? {
      assert ArmsAt(settings, s, longer, i) && longer[j].ContextRequested?;
    }
    if i :| 0 <= i < n && ArmsAt(settings, s, events, i) {
      assert ArmsAt(settings, s, longer, i);
      if e.ContextRequested? { assert longer[n].ContextRequested?; }
    }
  }

  /** Within a request every execution in flight belongs to it or can no longer recover, and
      the request's record tells whether the one recovery was used. */
  predicate RequestInv(settings: Settings, began: State, now: State, armed: bool, delivered: bool) {
    && Wf(now) && began.current.Some?
    && now.current == began.current && now.recoveryAllowed == began.recoveryAllowed
    && (forall x <- now.running :: now.running[x] == began.current.value || !CanRecover(settings, now.records[now.running[x]]))
    && now.records[began.current.value].recoveryAttempted == armed
    && (delivered ==> armed)
    && (now.pending.Some? <==> armed && !delivered)
    && now.injected == began.injected + if delivered then 1 else 0
  }

  lemma StepKeepsRequestInv(settings: Settings, began: State, now: State, armed: bool, delivered: bool, e: Event)
    requires RequestInv(settings, began, now, armed, delivered) && !e.BeforeAgentStart? && !e.AgentEnds?
    ensures RequestInv(settings, began, Step(settings, now, e),
                       armed || Arms(settings, now, e), delivered || (armed && e.ContextRequested?))
  {
  }

  lemma {:induction false} RequestRun(settings: Settings, began: State, events: seq<Event>)
    requires RequestInv(settings, began, began, false, false) && WithinRequest(events)
    ensures RequestInv(settings, began, Run(settings, began, events),
                       SomeArms(settings, began, events), ArmsThenContext(settings, began, events))
  {
    if events != [] {
      var before := events[..|events| - 1];
      var e := events[|events| - 1];
      assert events == before + [e];
      RequestRun(settings, began, before);
      hide RequestInv, SomeArms, ArmsThenContext, Arms, Step;
      ArmsGrow(settings, began, before, e);
      StepKeepsRequestInv(settings, began, Run(settings, began, before),
                          SomeArms(settings, began, before), ArmsThenContext(settings, began, before), e);
    }
  }

  /** No execution left over from earlier requests can still recover: its record was recovered
      already, or the settings do not allow it. */
  predicate HarmlessLeftovers(settings: Settings, s: State)
    requires Wf(s)
  {
    forall x <- s.running :: !CanRecover(settings, s.records[s.running[x]])
  }

  /** A request that begins with harmless leftovers injects a recovery message exactly when a
      failure armed the recovery and the model was asked again afterwards, before the request
      ended, and then exactly one. */
  lemma OneInjectionPerRequest(settings: Settings, s: State, prompt: Option<Prompt>, events: seq<Event>)
    requires Wf(s) && HarmlessLeftovers(settings, s) && WithinRequest(events)
    ensures var began := Step(settings, s, BeforeAgentStart(prompt));
      Run(settings, began, events).injected
      == s.injected + if ArmsThenContext(settings, began, events) then 1 else 0
  {
    hide Run, ArmsThenContext, SomeArms, Route;
    RequestRun(settings, Step(settings, s, BeforeAgentStart(prompt)), events);
  }

  /** At most one message per request: for a prompt that may be retried this holds, over all
      that can happen in the request, exactly when the leftovers it begins with are harmless. */
  lemma AtMostOneInjection(settings: Settings, s: State, prompt: Option<Prompt>)
    requires Wf(s) && (prompt.Some? ==> !prompt.value.isMutation)
    ensures HarmlessLeftovers(settings, s)
      <==> forall events: seq<Event> :: (
             WithinRequest(events)
             ==> Run(settings, Step(settings, s, BeforeAgentStart(prompt)), events).injected <= s.injected + 1)
  {
    hide Run, Step, WithinRequest, ArmsThenContext;
    if HarmlessLeftovers(settings, s) {
      forall events: seq<Event> | WithinRequest(events)
        ensures Run(settings, Step(settings, s, BeforeAgentStart(prompt)), events).injected <= s.injected + 1
      {
        OneInjectionPerRequest(settings, s, prompt, events);
      }
    } else {
      var x :| x in s.running && CanRecover(settings, s.records[s.running[x]]);
      LeftoverExecutionAddsOne(settings, s, prompt, x, MissingAwait);
      FailuresStayWithin(s, x, MissingAwait);
    }
  }

  /** The leftover fails, then an execution of the request itself. */
  function TwoFailures(s: State, x: nat, failure: FailureClass): seq<Event> {
    [ExecutionStarts, ExecutionFails(x, true, Some(failure)), ContextRequested,
     ExecutionFails(s.started, true, Some(failure)), ContextRequested]
  }

  lemma FailuresStayWithin(s: State, x: nat, failure: FailureClass)
    ensures WithinRequest(TwoFailures(s, x, failure))
  {
  }

  /** A mutation prompt never gets one, even if executions of earlier requests are still in flight. */
  lemma {:induction false} MutationPromptsAreNotRetried(settings: Settings, s: State, p: Prompt, events: seq<Event>)
    requires Wf(s) && p.isMutation && WithinRequest(events)
    ensures var end := Run(settings, Step(settings, s, BeforeAgentStart(Some(p))), events);
      end.injected == s.injected && end.pending.None? && !end.recoveryAllowed
  {
    hide Route;
    if events != [] { MutationPromptsAreNotRetried(settings, s, p, events[..|events| - 1]); }
  }

  /** A leftover that can recover and fails in the request after its own is charged to its own
      record, but its retry goes to that request, which then gets two messages. */
  lemma LeftoverExecutionAddsOne(settings: Settings, s: State, prompt: Option<Prompt>, x: nat, failure: FailureClass)
    requires Wf(s) && x in s.running && CanRecover(settings, s.records[s.running[x]])
    requires prompt.Some? ==> !prompt.value.isMutation
    ensures Run(settings, Step(settings, s, BeforeAgentStart(prompt)), TwoFailures(s, x, failure)).injected == s.injected + 2
  {
    hide Route;
    var began := Step(settings, s, BeforeAgentStart(prompt));
    var own := |s.records|;
    assert began.records[own].attempts == 0 && !began.records[own].recoveryAttempted;
    assert began.current == Some(own) && began.running == s.running;
    var events := TwoFailures(s, x, failure);
    var after := Step(settings, began, events[0]);
    assert after.running == s.running[s.started := own];
    assert CanRecover(settings, after.records[own]);
    assert after.records[s.running[x]] == s.records[s.running[x]];
    FailThenContext(settings, after, x, failure);
    var again := Step(settings, Step(settings, after, events[1]), events[2]);
    assert again.records[own] == after.records[own];
    FailThenContext(settings, again, s.started, failure);
    hide Step, Run;
    RunFive(settings, began, events);
  }

  lemma FailThenContext(settings: Settings, s: State, x: nat, failure: FailureClass)
    requires Wf(s) && s.recoveryAllowed && x in s.running && CanRecover(settings, s.records[s.running[x]])
    ensures var next := Step(settings, Step(settings, s, ExecutionFails(x, true, Some(failure))), ContextRequested);
      && next.injected == s.injected + 1 && next.recoveryAllowed && next.running == s.running - {x}
      && |next.records| == |s.records|
      && forall i :: 0 <= i < |s.records| && i != s.running[x] ==> next.records[i] == s.records[i]
  {
  }

  lemma RunFive(settings: Settings, s: State, events: seq<Event>)
    requires Wf(s) && |events| == 5
    ensures Run(settings, s, events)
            == Step(settings, Step(settings, Step(settings, Step(settings, Step(settings, s, events[0]), events[1]), events[2]), events[3]), events[4])
  {
    hide Step;
    assert events[..1][..0] == [] && events[..2][..1] == events[..1] && events[..3][..2] == events[..2];
    assert events[..4][..3] == events[..3] && events[..5] == events;
    assert Run(settings, s, events[..1]) == Step(settings, s, events[0]);
    assert Run(settings, s, events[..2]) == Step(settings, Run(settings, s, events[..1]), events[1]);
    assert Run(settings, s, events[..3]) == Step(settings, Run(settings, s, events[..2]), events[2]);
    assert Run(settings, s, events[..4]) == Step(settings, Run(settings, s, events[..3]), events[3]);
  }

  // --- routing and restoring ---

  /** A list that routing moved away from the tools it had: it lacks one of them, or it has
      gained code_execution. No further routing can bring the old list back. */
  predicate Left(tools: seq<string>, active: seq<string>) {
    (exists name <- tools :: name != CODE_EXECUTION && name !in active) || (CODE_EXECUTION !in tools && CODE_EXECUTION in active)
  }

  lemma {:induction false} WithoutNone(active: seq<string>, routable: set<string>)
    requires forall name <- active :: name !in routable
    ensures Without(active, routable) == active
  {
    if active != [] {
      assert active == active[..|active| - 1] + [active[|active| - 1]];
      WithoutNone(active[..|active| - 1], routable);
    }
  }

  lemma RouteLeaves(tools: seq<string>, routable: set<string>)
    requires CODE_EXECUTION !in routable
    ensures Route(tools, routable) == tools || Left(tools, Route(tools, routable))
  {
    if forall name <- tools :: name !in routable {
      WithoutNone(tools, routable);
    } else {
      var name :| name in tools && name in routable;
      assert name != CODE_EXECUTION && name !in Route(tools, routable);
    }
  }

  lemma RouteStaysLeft(tools: seq<string>, active: seq<string>, routable: set<string>)
    requires Left(tools, active) && CODE_EXECUTION !in routable
    ensures Left(tools, Route(active, routable))
  {
    if name :| name in tools && name != CODE_EXECUTION && name !in active {
      assert name !in Route(active, routable);
    }
  }

  /** Routing that changes the list while an older list is still waiting to be restored. */
  predicate Overwrites(s: State, e: Event) {
    e.BeforeAgentStart? && e.prompt.Some? && e.prompt.value.route && s.saved.Some?
    && Route(s.active, e.prompt.value.routable) != s.active
  }

  ghost predicate SomeOverwrites(settings: Settings, s: State, events: seq<Event>)
    requires Wf(s)
  {
    exists k :: 0 <= k < |events| && Overwrites(Run(settings, s, events[..k]), events[k])
  }

  /** Nobody but the routing touches the list, no request ends, and code_execution is not
      among the tools routed away. */
  predicate OnlyRouting(e: Event) {
    !e.AgentEnds? && !e.HostSetsTools?
    && (e.BeforeAgentStart? && e.prompt.Some? ==> CODE_EXECUTION !in e.prompt.value.routable)
  }

  predicate RestoreInv(tools: seq<string>, s: State, lost: bool) {
    if lost then s.saved.Some? && Left(tools, s.saved.value) && Left(tools, s.active)
    else if s.saved.None? then s.active == tools
    else s.saved.value == tools && Left(tools, s.active)
  }

  lemma StepKeepsRestoreInv(settings: Settings, tools: seq<string>, s: State, lost: bool, e: Event)
    requires Wf(s) && RestoreInv(tools, s, lost) && OnlyRouting(e)
    ensures RestoreInv(tools, Step(settings, s, e), lost || Overwrites(s, e))
  {
    if e.BeforeAgentStart? && e.prompt.Some? {
      RouteLeaves(s.active, e.prompt.value.routable);
      if Left(tools, s.active) { RouteStaysLeft(tools, s.active, e.prompt.value.routable); }
    }
    hide Left, Route, Fail, Start;
  }

  lemma OverwritesGrow(settings: Settings, s: State, events: seq<Event>, e: Event)
    requires Wf(s)
    ensures SomeOverwrites(settings, s, events + [e])
            <==> SomeOverwrites(settings, s, events) || Overwrites(Run(settings, s, events), e)
  {
    hide Run, Overwrites;
    var longer := events + [e];
    assert longer[..|events|] == events && longer[|events|] == e;
    forall i | 0 <= i < |events| ensures longer[..i] == events[..i] && longer[i] == events[i] {
    }
    if k :| 0 <= k < |longer| && Overwrites(Run(settings, s, longer[..k]), longer[k]) {
      assert k == |events| || Overwrites(Run(settings, s, events[..k]), events[k]);
    }
    if k :| 0 <= k < |events| && Overwrites(Run(settings, s, events[..k]), events[k]) {
      assert Overwrites(Run(settings, s, longer[..k]), longer[k]);
    }
  }

  lemma {:induction false} RestoreRun(settings: Settings, s: State, events: seq<Event>)
    requires Wf(s) && s.saved.None? && forall e <- events :: OnlyRouting(e)
    ensures RestoreInv(s.active, Run(settings, s, events), SomeOverwrites(settings, s, events))
  {
    if events != [] {
      var before := events[..|events| - 1];
      var e := events[|events| - 1];
      assert events == before + [e];
      RestoreRun(settings, s, before);
      hide RestoreInv, SomeOverwrites, Step, Overwrites;
      OverwritesGrow(settings, s, before, e);
      StepKeepsRestoreInv(settings, s.active, Run(settings, s, before), SomeOverwrites(settings, s, before), e);
    }
  }

  /** The end of a request gives back exactly the tool list that was active when nothing was
      waiting to be restored, if and only if no second routing changed an already routed list. */
  lemma RestoresExactly(settings: Settings, s: State, events: seq<Event>)
    requires Wf(s) && s.saved.None? && forall e <- events :: OnlyRouting(e)
    ensures var end := Step(settings, Run(settings, s, events), AgentEnds);
      end.saved.None? && (end.active == s.active <==> !SomeOverwrites(settings, s, events))
  {
    hide Run, SomeOverwrites;
    RestoreRun(settings, s, events);
  }

  /** A request that starts once and ends, whatever its prompt routes away, restores the list. */
  lemma OneRequestRestores(settings: Settings, s: State, prompt: Option<Prompt>, events: seq<Event>)
    requires Wf(s) && s.saved.None? && WithinRequest(events)
    requires OnlyRouting(BeforeAgentStart(prompt)) && forall e <- events :: OnlyRouting(e)
    ensures Step(settings, Run(settings, s, [BeforeAgentStart(prompt)] + events), AgentEnds).active == s.active
  {
    var all := [BeforeAgentStart(prompt)] + events;
    assert Run(settings, s, all[..0]) == s;
    hide Run, Route;
    RestoresExactly(settings, s, all);
  }

  /** Two starts before an end: the second routing saves the list that the first one made, and
      the request ends without the tool that the first one took away. */
  lemma SecondRoutingLosesTool(settings: Settings, s: State, a: string, b: string)
    requires Wf(s) && s.saved.None? && s.active == [a, b]
    requires a != b && a != CODE_EXECUTION && b != CODE_EXECUTION
    ensures var first := Step(settings, s, BeforeAgentStart(Some(Prompt(false, true, {a}))));
      var second := Step(settings, first, BeforeAgentStart(Some(Prompt(false, true, {b}))));
      Step(settings, second, AgentEnds).active == [b, CODE_EXECUTION] != s.active
  {
    RoutePair(a, b);
    RoutePair(b, CODE_EXECUTION);
    RoutingSaves(settings, s, {a});
    var first := Step(settings, s, BeforeAgentStart(Some(Prompt(false, true, {a}))));
    RoutingSaves(settings, first, {b});
    hide Route, Step, Wf;
    assert first.active == [b, CODE_EXECUTION];
    assert s.active[0] != first.active[0];
  }

  lemma RoutingSaves(settings: Settings, s: State, routable: set<string>)
    requires Wf(s) && Route(s.active, routable) != s.active
    ensures var next := Step(settings, s, BeforeAgentStart(Some(Prompt(false, true, routable))));
      && next.saved == Some(s.active) && next.active == Route(s.active, routable)
      && Step(settings, next, AgentEnds).active == s.active
  {
    hide Route;
  }

  /** Routing the first of two tools away leaves the second, and code_execution behind it. */
  lemma RoutePair(a: string, b: string)
    requires a != b && a != CODE_EXECUTION
    ensures Route([a, b], {a}) == if b == CODE_EXECUTION then [b] else [b, CODE_EXECUTION]
    ensures Route([a, b], {a}) != [a, b]
  {
    WithoutPair(a, b, {a});
    hide Without;
    assert Without([a, b], {a}) == [b];
    assert [a, b][0] == a;
  }

  lemma WithoutPair(a: string, b: string, routable: set<string>)
    ensures Without([a, b], routable) == (if a in routable then [] else [a]) + (if b in routable then [] else [b])
  {
    assert [a, b][..1] == [a] && [a][..0] == [];
    assert Without([], routable) == [];
    assert Without([a], routable) == [] + (if a in routable then [] else [a]);
  }

  // --- what each event writes ---

  /** The end of an execution is written to the record that was current when it started: success
      as such, and a failure as before or after recovery, which it is once recovery was tried,
      by this very failure or an earlier one. No other event touches a terminal state. */
  lemma TerminalTells(settings: Settings, s: State, e: Event, i: nat)
    requires Wf(s) && i < |s.records|
    ensures |Step(settings, s, e).records| >= |s.records|
    ensures var before, after := s.records[i], Step(settings, s, e).records[i];
      if e.ExecutionSucceeds? && e.execution in s.running && s.running[e.execution] == i then
        after.terminal == Some(Succeeded)
      else if e.ExecutionFails? && e.execution in s.running && s.running[e.execution] == i then
        after.terminal == if after.recoveryAttempted then Some(FailedAfterRecovery) else Some(FailedWithoutRecovery)
      else after.terminal == before.terminal
  {
    hide Route;
  }

  /** Recovery is tried for a record by the first classified Python failure of one of its
      executions while recovery is allowed, under settings that turn it on; a start counts an
      attempt for the current record, and nothing else writes to either. */
  lemma RecoveryTells(settings: Settings, s: State, e: Event, i: nat)
    requires Wf(s) && i < |s.records|
    ensures |Step(settings, s, e).records| >= |s.records|
    ensures var before, after := s.records[i], Step(settings, s, e).records[i];
      && (after.recoveryAttempted != before.recoveryAttempted
          <==> && e.ExecutionFails? && e.execution in s.running && s.running[e.execution] == i
               && e.isPythonError && e.failure.Some? && s.recoveryAllowed
               && settings.autoRecover && (settings.maxAttempts.None? || settings.maxAttempts.value > 0)
               && before.attempts > 0 && !before.recoveryAttempted)
      && (after.recoveryAttempted != before.recoveryAttempted ==>
            after.failureClass == e.failure && Step(settings, s, e).pending == e.failure)
      && (after.recoveryAttempted == before.recoveryAttempted ==> after.failureClass == before.failureClass)
      && after.attempts == before.attempts + (if e.ExecutionStarts? && s.current == Some(i) then 1 else 0)
      && after.autoRouted == before.autoRouted
  {
    hide Route;
  }

  /** A request begins with a record of its own, which says whether it was routed; an execution
      outside of any request gets one when it starts. */
  lemma RecordsBegin(settings: Settings, s: State, e: Event)
    requires Wf(s)
    ensures var t, n := Step(settings, s, e), |s.records|;
      && (e.BeforeAgentStart? ==>
            && |t.records| == n + 1 && t.current == Some(n) && t.pending.None?
            && t.records[n] == NEW_RECORD.(autoRouted := e.prompt.Some? && e.prompt.value.route)
            && (t.recoveryAllowed <==> e.prompt.None? || !e.prompt.value.isMutation))
      && (e.ExecutionStarts? ==>
            && t.current.Some? && t.running == s.running[s.started := t.current.value]
            && (s.current.Some? ==> t.current == s.current && |t.records| == n)
            && (s.current.None? ==> t.current == Some(n) && |t.records| == n + 1 && t.records[n].attempts == 1))
      && (!e.BeforeAgentStart? && !e.ExecutionStarts? ==> |t.records| == n)
      && (e.AgentEnds? ==> t.current.None? && t.pending.None? && t.recoveryAllowed && t.saved.None?)
  {
    hide Route;
  }

  /** No message is ever injected exactly under settings that turn recovery off. */
  lemma RecoveryOff(settings: Settings)
    ensures (forall events: seq<Event> :: Run(settings, START, events).injected == 0)
      <==> !settings.autoRecover || (settings.maxAttempts.Some? && settings.maxAttempts.value <= 0)
  {
    if settings.autoRecover && (settings.maxAttempts.None? || settings.maxAttempts.value > 0) {
      var s := Step(settings, START, ExecutionStarts);
      assert s.running == map[0 := 0] && CanRecover(settings, s.records[0]);
      FailThenContext(settings, s, 0, MissingAwait);
      RunThree(settings, START, [ExecutionStarts, ExecutionFails(0, true, Some(MissingAwait)), ContextRequested]);
    } else {
      forall events: seq<Event> ensures Run(settings, START, events).injected == 0 {
        NeverArmed(settings, events);
      }
    }
  }

  lemma {:induction false} NeverArmed(settings: Settings, events: seq<Event>)
    requires !settings.autoRecover || (settings.maxAttempts.Some? && settings.maxAttempts.value <= 0)
    ensures Run(settings, START, events).injected == 0 && Run(settings, START, events).pending.None?
  {
    if events != [] {
      NeverArmed(settings, events[..|events| - 1]);
      NeverArms(settings, Run(settings, START, events[..|events| - 1]), events[|events| - 1]);
    }
  }

  lemma NeverArms(settings: Settings, s: State, e: Event)
    requires !settings.autoRecover || (settings.maxAttempts.Some? && settings.maxAttempts.value <= 0)
    requires Wf(s) && s.pending.None?
    ensures Step(settings, s, e).injected == s.injected && Step(settings, s, e).pending.None?
  {
    hide Route;
  }

  lemma RunThree(settings: Settings, s: State, events: seq<Event>)
    requires Wf(s) && |events| == 3
    ensures Run(settings, s, events) == Step(settings, Step(settings, Step(settings, s, events[0]), events[1]), events[2])
  {
    hide Step;
    assert events[..1][..0] == [] && events[..2][..1] == events[..1] && events[..3] == events;
    assert Run(settings, s, events[..1]) == Step(settings, s, events[0]);
    assert Run(settings, s, events[..2]) == Step(settings, Run(settings, s, events[..1]), events[1]);
  }

  /** Routing keeps the order of the tools that stay, and puts code_execution last unless it is
      among them. */
  lemma RouteMeans(a: seq<string>, b: seq<string>, routable: set<string>, name: string)
    ensures Without(a + b, routable) == Without(a, routable) + Without(b, routable)
    ensures Without([name], routable) == if name in routable then [] else [name]
    ensures CODE_EXECUTION in a && CODE_EXECUTION !in routable ==> Route(a, routable) == Without(a, routable)
    ensures CODE_EXECUTION !in a || CODE_EXECUTION in routable ==> Route(a, routable) == Without(a, routable) + [CODE_EXECUTION]
  {
    WithoutConcat(a, b, routable);
    assert [name][..0] == [] && Without([], routable) == [];
  }

  lemma {:induction false} WithoutConcat(a: seq<string>, b: seq<string>, routable: set<string>)
    ensures Without(a + b, routable) == Without(a, routable) + Without(b, routable)
  {
    if b == [] {
      assert a + b == a;
    } else {
      var n := |b| - 1;
      assert (a + b)[..|a + b| - 1] == a + b[..n] && (a + b)[|a + b| - 1] == b[n];
      WithoutConcat(a, b[..n], routable);
      assert Without(a, routable) + Without(b[..n], routable) + (if b[n] in routable then [] else [b[n]])
          == Without(a, routable) + (Without(b[..n], routable) + (if b[n] in routable then [] else [b[n]]));
    }
  }
}
