/** The Node side of the bridge: frames read from the child, tool handlers that finish in any
    order, and a one-shot completion that many events race for. */
module Protocol {
  import opened Wrappers
  import opened JsonText
  import opened Text

  datatype Call = Call(id: string, tool: string, params: Json)

  /** A line of the child's stdout after parsing and validation. */
  datatype Frame =
    | ToolCall(call: Call)
    | Progress
    | Stdout(text: string)
    | Complete(output: string, hasReport: bool)
    | ErrorFrame(message: string)
    | Update(message: string)
    | ToolResultFrame
    | Malformed(line: string)

  datatype Reply = Value(v: Json) | Error(payload: Json)

  /** A tool_result frame, tagged with the number of the handler that wrote it. */
  datatype Sent = Sent(handler: nat, id: string, reply: Reply)

  datatype Counters = Counters(calls: nat, names: seq<string>, resultChars: nat, results: nat, errors: nat)

  datatype Exit = Exit(code: Option<int>, signal: Option<string>)

  /** What makes the handling of a line throw. */
  datatype Failure = ProtocolFailure(line: string) | CallbackFailure

  /** How an execution settles, with details of type D where the source attaches them. */
  datatype Outcome<+D> =
    | Success(output: string, hasReport: bool, details: D)
    | PythonFailure(message: string, details: D)
    | ClosedEarly(stderr: string, exit: Option<Exit>, details: D)
    | Broken(failure: Failure)
    | TransportFailure(message: string)
    | Aborted
    | TimedOut

  /** Work queued behind the running event. */
  datatype Microtask =
    | Reject(reason: Failure)
    | Relay(reason: Failure)
    | CloseCheck

  /** How a tool handler ends: it throws, or it returns a value that may fail to serialise. */
  datatype Ending = Throws(error: Json) | Returns(v: Json, chars: nat, serialises: bool, serialiseError: Json)

  /** The tool calls: counted, running, answered. The last two fields only keep history:
      calls counted as result and as error, and calls whose update callback threw. */
  datatype Work = Work(
    counters: Counters,
    running: map<nat, Call>,
    stdinOpen: bool,
    sent: seq<Sent>,
    countedTwice: nat,
    abandoned: nat)

  /** The completion promise, what the waiting caller was told, and the streams. */
  datatype State = State(
    completion: Option<Outcome<Counters>>,
    caller: Option<Outcome<Counters>>,
    stdout: string,
    stderr: string,
    exit: Option<Exit>,
    stdoutClosed: bool,
    microtasks: seq<Microtask>,
    work: Work)

  const NO_WORK := Work(Counters(0, [], 0, 0, 0), map[], true, [], 0, 0)
  const START := State(None, None, "", "", None, false, [], NO_WORK)

  /** callbackThrows says whether the update callback, where the frame invokes it, throws. */
  datatype Event =
    | Line(frame: Frame, callbackThrows: bool)
    | StdoutClose
    | Stderr(text: string)
    | ProcessExit(code: Option<int>, signal: Option<string>)
    | ProcessClose(code: Option<int>, signal: Option<string>)
    | ProcessError(message: string)
    | Abort
    | Timeout
    | StdinDestroyed
    | HandlerEnds(handler: nat, ending: Ending)
    | RunMicrotask

  /** Which events can happen: no line after the close, only running handlers end. */
  predicate Enabled(s: State, e: Event) {
    match e
    case Line(_, _) => !s.stdoutClosed
    case StdoutClose => !s.stdoutClosed
    case HandlerEnds(h, _) => h in s.work.running
    case RunMicrotask => s.microtasks != []
    case _ => true
  }

  // --- the effect of each event ---

  /** resolveOnce and rejectOnce: the first settlement wins, and it reaches the waiting caller
      unless the timeout was faster. */
  function Settle(s: State, outcome: Outcome<Counters>): State {
    if s.completion.Some? then s
    else s.(completion := Some(outcome), caller := if s.caller.None? then Some(outcome) else s.caller)
  }

  function Queue(s: State, task: Microtask): State {
    s.(microtasks := s.microtasks + [task])
  }

  function AppendStdout(stdout: string, text: string): string {
    if text == "" then stdout else if stdout != "" then stdout + text else text
  }

  /** The output of a complete frame behind everything printed before it. */
  function FinalOutput(stdout: string, output: string): string {
    if stdout != "" then Trim(IsJsSpace, stdout + output) else output
  }

  function CountCall(w: Work, call: Call): Work {
    var c := w.counters;
    w.(counters := c.(calls := c.calls + 1, names := c.names + [call.tool]))
  }

  function StartHandler(w: Work, call: Call): Work {
    CountCall(w, call).(running := w.running[w.counters.calls + 1 := call])
  }

  function OnLine(s: State, frame: Frame, callbackThrows: bool): State {
    match frame
    case ToolCall(call) =>
      if callbackThrows then
        Queue(s.(work := CountCall(s.work, call).(abandoned := s.work.abandoned + 1)), Relay(CallbackFailure))
      else s.(work := StartHandler(s.work, call))
    case Stdout(text) => s.(stdout := AppendStdout(s.stdout, text))
    case Complete(output, hasReport) => Settle(s, Success(FinalOutput(s.stdout, output), hasReport, s.work.counters))
    case ErrorFrame(message) => Settle(s, PythonFailure(message, s.work.counters))
    case Malformed(line) => Queue(s, Reject(ProtocolFailure(line)))
    case ToolResultFrame => s
    case _ => if callbackThrows then Queue(s, Reject(CallbackFailure)) else s
  }

  function Write(w: Work, frame: Sent): Work {
    if w.stdinOpen then w.(sent := w.sent + [frame]) else w
  }

  function EndHandler(w: Work, h: nat, ending: Ending): Work
    requires h in w.running
  {
    var id := w.running[h].id;
    var c := w.counters;
    var done := w.(running := w.running - {h});
    match ending
    case Throws(error) =>
      Write(done.(counters := c.(errors := c.errors + 1)), Sent(h, id, Error(error)))
    case Returns(v, chars, serialises, serialiseError) =>
      var counted := c.(results := c.results + 1, resultChars := c.resultChars + chars);
      if serialises || !w.stdinOpen then Write(done.(counters := counted), Sent(h, id, Value(v)))
      else
        Write(done.(counters := counted.(errors := counted.errors + 1), countedTwice := w.countedTwice + 1),
              Sent(h, id, Error(serialiseError)))
  }

  function RecordExit(s: State, exit: Exit): State {
    if s.completion.Some? then s else s.(exit := Some(exit))
  }

  function OnMicrotask(s: State): State
    requires s.microtasks != []
  {
    var rest := s.(microtasks := s.microtasks[1..]);
    match s.microtasks[0]
    case Reject(reason) => Settle(rest, Broken(reason))
    case Relay(reason) => Queue(rest, Reject(reason))
    case CloseCheck => Settle(rest, ClosedEarly(s.stderr, s.exit, s.work.counters))
  }

  function Step(s: State, e: Event): State
    requires Enabled(s, e)
  {
    match e
    case Line(frame, callbackThrows) => OnLine(s, frame, callbackThrows)
    case StdoutClose =>
      var closed := s.(stdoutClosed := true);
      if s.completion.Some? then closed else Queue(closed, CloseCheck)
    case Stderr(text) => s.(stderr := s.stderr + text)
    case ProcessExit(code, signal) => RecordExit(s, Exit(code, signal))
    case ProcessClose(code, signal) => RecordExit(s, Exit(code, signal))
    case ProcessError(message) => Settle(s, TransportFailure(message))
    case Abort => Settle(s, Aborted)
    case Timeout => if s.caller.None? then s.(caller := Some(TimedOut)) else s
    case StdinDestroyed => s.(work := s.work.(stdinOpen := false))
    case HandlerEnds(h, ending) => s.(work := EndHandler(s.work, h, ending))
    case RunMicrotask => OnMicrotask(s)
  }

  // --- runs ---

  predicate EnabledRun(s: State, events: seq<Event>)
    decreases |events|
  {
    events == [] || (Enabled(s, events[0]) && EnabledRun(Step(s, events[0]), events[1..]))
  }

  function Run(s: State, events: seq<Event>): State
    requires EnabledRun(s, events)
    decreases |events|
  {
    if events == [] then s else Run(Step(s, events[0]), events[1..])
  }

  ghost predicate Reachable(s: State) {
    exists events: seq<Event> :: EnabledRun(START, events) && Run(START, events) == s
  }

  /** Every counted call is accounted for, and every frame sent belongs to one ended handler. */
  ghost predicate WorkInv(w: Work) {
    && |w.counters.names| == w.counters.calls
    && w.counters.calls + w.countedTwice == w.counters.results + w.counters.errors + |w.running| + w.abandoned
    && (forall h <- w.running :: 1 <= h <= w.counters.calls && w.running[h].tool == w.counters.names[h - 1])
    && (forall i :: 0 <= i < |w.sent| ==> 1 <= w.sent[i].handler <= w.counters.calls && w.sent[i].handler !in w.running)
    && (forall i, j :: 0 <= i < j < |w.sent| ==> w.sent[i].handler != w.sent[j].handler)
  }

  /** After the close there is a settlement or one on its way; the caller learns of the
      settlement unless it had timed out before. */
  ghost predicate SettleInv(s: State) {
    && (s.stdoutClosed && s.completion.None? ==> CloseCheck in s.microtasks)
    && (s.completion.Some? ==> s.caller == s.completion || s.caller == Some(TimedOut))
    && (s.completion.None? ==> s.caller.None? || s.caller == Some(TimedOut))
  }

  lemma CountKeepsWork(w: Work, call: Call)
    requires WorkInv(w)
    ensures WorkInv(CountCall(w, call).(abandoned := w.abandoned + 1))
  {
    var names := CountCall(w, call).counters.names;
    assert forall k <- w.running :: names[k - 1] == w.counters.names[k - 1];
  }

  lemma OneMore(running: map<nat, Call>, h: nat, call: Call)
    requires h !in running
    ensures |running[h := call]| == |running| + 1
  {
    assert running[h := call].Keys == running.Keys + {h};
    assert |running[h := call]| == |running[h := call].Keys|;
    assert |running| == |running.Keys|;
  }

  lemma StartKeepsWork(w: Work, call: Call)
    requires WorkInv(w)
    ensures WorkInv(StartHandler(w, call))
  {
    var h := w.counters.calls + 1;
    var t := StartHandler(w, call);
    assert h !in w.running;
    OneMore(w.running, h, call);
    forall k <- t.running ensures 1 <= k <= t.counters.calls && t.running[k].tool == t.counters.names[k - 1] {
      if k != h { assert k in w.running; }
    }
  }

  lemma WriteKeepsWork(w: Work, frame: Sent)
    requires WorkInv(w) && 1 <= frame.handler <= w.counters.calls && frame.handler !in w.running
    requires forall i :: 0 <= i < |w.sent| ==> w.sent[i].handler != frame.handler
    ensures WorkInv(Write(w, frame))
  {
  }

  /** Taking one handler out, with one more result or error to show for it. */
  lemma RemoveKeepsWork(w: Work, h: nat, c: Counters, twice: nat)
    requires WorkInv(w) && h in w.running
    requires c.calls == w.counters.calls && c.names == w.counters.names
    requires c.results + c.errors - twice == w.counters.results + w.counters.errors - w.countedTwice + 1
    ensures WorkInv(w.(running := w.running - {h}, counters := c, countedTwice := twice))
    ensures 1 <= h <= w.counters.calls && forall i :: 0 <= i < |w.sent| ==> w.sent[i].handler != h
  {
    var left := w.running - {h};
    assert left.Keys == w.running.Keys - {h};
    assert |left| == |left.Keys| == |w.running.Keys| - 1;
  }

  /** How a handler answers: once, while stdin is open, under the id of its call, with the value
      it returned, or with the error it threw, or with that of a value that does not serialise. */
  lemma EndingWrites(w: Work, h: nat, ending: Ending)
    requires h in w.running
    ensures EndHandler(w, h, ending).running == w.running - {h}
    ensures !w.stdinOpen ==> EndHandler(w, h, ending).sent == w.sent
    ensures w.stdinOpen ==>
      && |EndHandler(w, h, ending).sent| == |w.sent| + 1 && EndHandler(w, h, ending).sent[..|w.sent|] == w.sent
      && var frame := EndHandler(w, h, ending).sent[|w.sent|];
         && frame.handler == h && frame.id == w.running[h].id
         && (ending.Throws? ==> frame.reply == Error(ending.error))
         && (ending.Returns? && ending.serialises ==> frame.reply == Value(ending.v))
         && (ending.Returns? && !ending.serialises ==> frame.reply == Error(ending.serialiseError))
  {
  }

  lemma EndKeepsWork(w: Work, h: nat, ending: Ending)
    requires WorkInv(w) && h in w.running
    ensures WorkInv(EndHandler(w, h, ending))
  {
    hide Write, WorkInv;
    var done := w.(running := w.running - {h});
    var id, c := w.running[h].id, w.counters;
    match ending
    case Throws(error) =>
      RemoveKeepsWork(w, h, c.(errors := c.errors + 1), w.countedTwice);
      WriteKeepsWork(done.(counters := c.(errors := c.errors + 1)), Sent(h, id, Error(error)));
    case Returns(v, chars, serialises, serialiseError) =>
      var counted := c.(results := c.results + 1, resultChars := c.resultChars + chars);
      if serialises || !w.stdinOpen {
        RemoveKeepsWork(w, h, counted, w.countedTwice);
        WriteKeepsWork(done.(counters := counted), Sent(h, id, Value(v)));
      } else {
        var both := counted.(errors := counted.errors + 1);
        RemoveKeepsWork(w, h, both, w.countedTwice + 1);
        WriteKeepsWork(done.(counters := both, countedTwice := w.countedTwice + 1), Sent(h, id, Error(serialiseError)));
      }
  }

  lemma StepKeepsWork(s: State, e: Event)
    requires WorkInv(s.work) && Enabled(s, e)
    ensures WorkInv(Step(s, e).work)
  {
    hide WorkInv, EndHandler, StartHandler, CountCall;
    match e
    case Line(ToolCall(call), callbackThrows) =>
      StartKeepsWork(s.work, call);
      CountKeepsWork(s.work, call);
    case HandlerEnds(h, ending) => EndKeepsWork(s.work, h, ending);
    case StdinDestroyed => StdinKeepsWork(s.work);
    case _ =>
  }

  lemma StdinKeepsWork(w: Work)
    requires WorkInv(w)
    ensures WorkInv(w.(stdinOpen := false))
  {
  }

  lemma MicrotaskKeepsSettle(s: State)
    requires SettleInv(s) && s.microtasks != []
    ensures SettleInv(OnMicrotask(s))
  {
    assert s.microtasks == [s.microtasks[0]] + s.microtasks[1..];
    if s.microtasks[0].Relay? {
      QueueKeepsClose(s.(microtasks := s.microtasks[1..]), Reject(s.microtasks[0].reason));
    }
  }

  lemma QueueKeepsClose(s: State, task: Microtask)
    ensures CloseCheck in Queue(s, task).microtasks <==> CloseCheck in s.microtasks || task == CloseCheck
  {
    var q := Queue(s, task).microtasks;
    assert q[|s.microtasks|] == task;
    if CloseCheck in s.microtasks {
      var i :| 0 <= i < |s.microtasks| && s.microtasks[i] == CloseCheck;
      assert q[i] == CloseCheck;
    }
  }

  lemma StepKeepsSettle(s: State, e: Event)
    requires SettleInv(s) && Enabled(s, e)
    ensures SettleInv(Step(s, e))
  {
    hide EndHandler, StartHandler, CountCall;
    match e
    case Line(frame, callbackThrows) =>
    case RunMicrotask => MicrotaskKeepsSettle(s);
    case StdoutClose => QueueKeepsClose(s.(stdoutClosed := true), CloseCheck);
    case _ =>
  }

  ghost predicate Inv(s: State) {
    WorkInv(s.work) && SettleInv(s)
  }

  lemma {:induction false} RunKeepsInv(s: State, events: seq<Event>)
    requires Inv(s) && EnabledRun(s, events)
    ensures Inv(Run(s, events))
    decreases |events|
  {
    if events != [] {
      StepKeepsWork(s, events[0]);
      StepKeepsSettle(s, events[0]);
      RunKeepsInv(Step(s, events[0]), events[1..]);
    }
  }

  // --- main results ---

  /** Metrics conservation in every reachable state: each counted call has its name, and is a
      result, an error, a running handler or a call whose update callback threw; a call
      counts both as result and as error exactly when its value failed to serialise. Each
      handler wrote at most one result frame, and none while running. */
  lemma Conservation(s: State)
    requires Reachable(s)
    ensures |s.work.counters.names| == s.work.counters.calls
    ensures s.work.counters.calls + s.work.countedTwice
         == s.work.counters.results + s.work.counters.errors + |s.work.running| + s.work.abandoned
    ensures forall i, j :: 0 <= i < j < |s.work.sent| ==> s.work.sent[i].handler != s.work.sent[j].handler
    ensures forall i :: 0 <= i < |s.work.sent| ==> s.work.sent[i].handler !in s.work.running
  {
    var events: seq<Event> :| EnabledRun(START, events) && Run(START, events) == s;
    RunKeepsInv(START, events);
  }

  /** One call whose value fails to serialise is counted as a result and as an error, and one
      whose update callback throws as neither. */
  lemma CountedTwiceExample(call: Call, v: Json, chars: nat, error: Json)
    ensures var started := Step(START, Line(ToolCall(call), false));
      var ended := Step(started, HandlerEnds(1, Returns(v, chars, false, error)));
      ended.work.counters == Counters(1, [call.tool], chars, 1, 1) && ended.work.running == map[]
    ensures var thrown := Step(START, Line(ToolCall(call), true));
      thrown.work.counters == Counters(1, [call.tool], 0, 0, 0) && thrown.work.running == map[]
  {
  }

  /** A settled completion never changes again, nor does what the caller was told. */
  lemma {:induction false} SettlesOnce(s: State, events: seq<Event>)
    requires EnabledRun(s, events)
    ensures s.completion.Some? ==> Run(s, events).completion == s.completion
    ensures s.caller.Some? ==> Run(s, events).caller == s.caller
    decreases |events|
  {
    if events != [] {
      SettlesOnce(Step(s, events[0]), events[1..]);
    }
  }

  predicate OnlyProcessEvents(events: seq<Event>) {
    forall i :: 0 <= i < |events| ==> events[i].ProcessExit? || events[i].ProcessClose? || events[i].Stderr?
  }

  /** Process exit and close never settle the completion, in any number and order. */
  lemma {:induction false} ExitNeverSettles(s: State, events: seq<Event>)
    requires EnabledRun(s, events) && OnlyProcessEvents(events)
    ensures Run(s, events).completion == s.completion && Run(s, events).microtasks == s.microtasks
    ensures Run(s, events).stdout == s.stdout && Run(s, events).work == s.work
    ensures Run(s, events).stdoutClosed == s.stdoutClosed
    decreases |events|
  {
    if events != [] {
      ExitNeverSettles(Step(s, events[0]), events[1..]);
    }
  }

  lemma {:induction false} RunSplit(s: State, first: seq<Event>, rest: seq<Event>)
    requires EnabledRun(s, first) && EnabledRun(Run(s, first), rest)
    ensures EnabledRun(s, first + rest) && Run(s, first + rest) == Run(Run(s, first), rest)
    decreases |first|
  {
    if first == [] {
      assert first + rest == rest;
    } else {
      assert (first + rest)[1..] == first[1..] + rest;
      RunSplit(Step(s, first[0]), first[1..], rest);
    }
  }

  /** A complete frame read before the close, with nothing settled earlier, means success with
      its output, whatever process events come before it and whatever comes after it. */
  lemma CompleteWins(s: State, exits: seq<Event>, output: string, hasReport: bool, callbackThrows: bool, after: seq<Event>)
    requires s.completion.None? && !s.stdoutClosed
    requires EnabledRun(s, exits) && OnlyProcessEvents(exits)
    requires Enabled(Run(s, exits), Line(Complete(output, hasReport), callbackThrows))
    requires EnabledRun(Step(Run(s, exits), Line(Complete(output, hasReport), callbackThrows)), after)
    ensures Run(Step(Run(s, exits), Line(Complete(output, hasReport), callbackThrows)), after).completion
         == Some(Success(FinalOutput(s.stdout, output), hasReport, s.work.counters))
  {
    ExitNeverSettles(s, exits);
    SettlesOnce(Step(Run(s, exits), Line(Complete(output, hasReport), callbackThrows)), after);
  }

  function Weight(tasks: seq<Microtask>): nat {
    if tasks == [] then 0 else (if tasks[0].Relay? then 2 else 1) + Weight(tasks[1..])
  }

  lemma {:induction false} WeightConcat(a: seq<Microtask>, b: seq<Microtask>)
    ensures Weight(a + b) == Weight(a) + Weight(b)
  {
    if a == [] {
      assert a + b == b;
    } else {
      assert (a + b)[1..] == a[1..] + b;
      WeightConcat(a[1..], b);
    }
  }

  /** One microtask leaves less work in the queue than there was. */
  lemma MicrotaskProgress(s: State)
    requires s.microtasks != []
    ensures Weight(OnMicrotask(s).microtasks) < Weight(s.microtasks)
  {
    if s.microtasks[0].Relay? {
      var reason := s.microtasks[0].reason;
      WeightConcat(s.microtasks[1..], [Reject(reason)]);
      assert Weight([Reject(reason)]) == 1 + Weight([]);
    }
  }

  /** Running microtasks until none is left. */
  function Drain(s: State): (t: State)
    ensures t.microtasks == []
    decreases Weight(s.microtasks)
  {
    if s.microtasks == [] then s
    else
      MicrotaskProgress(s);
      Drain(OnMicrotask(s))
  }

  lemma {:induction false} DrainKeeps(s: State)
    requires SettleInv(s)
    ensures SettleInv(Drain(s)) && Drain(s).stdoutClosed == s.stdoutClosed
    ensures s.completion.Some? ==> Drain(s).completion == s.completion
    decreases Weight(s.microtasks)
  {
    if s.microtasks != [] {
      MicrotaskProgress(s);
      MicrotaskKeepsSettle(s);
      DrainKeeps(OnMicrotask(s));
    }
  }

  /** No execution hangs: in any reachable state whose stdout has closed, draining the
      microtasks settles the completion, and the caller has an answer. */
  lemma ClosedSettles(s: State)
    requires Reachable(s) && s.stdoutClosed
    ensures Drain(s).completion.Some? && Drain(s).caller.Some?
  {
    var events: seq<Event> :| EnabledRun(START, events) && Run(START, events) == s;
    RunKeepsInv(START, events);
    DrainKeeps(s);
  }

  // --- frames that arrive in one chunk ---

  /** The lines of one chunk are handled in one go; microtasks run only after the last. */
  function ReadLines(s: State, frames: seq<Frame>): State
    decreases |frames|
  {
    if frames == [] then s else ReadLines(OnLine(s, frames[0], false), frames[1..])
  }

  /** The settlement that a chunk causes by itself: the first complete or error frame in it,
      wherever it stands, and failing that its first malformed line. */
  function FirstTerminal(s: State, frames: seq<Frame>): Option<Outcome<Counters>>
    decreases |frames|
  {
    if frames == [] then None
    else
      match frames[0]
      case Complete(output, hasReport) => Some(Success(FinalOutput(s.stdout, output), hasReport, s.work.counters))
      case ErrorFrame(message) => Some(PythonFailure(message, s.work.counters))
      case _ => FirstTerminal(OnLine(s, frames[0], false), frames[1..])
  }

  function FirstMalformed(frames: seq<Frame>): Option<Failure> {
    if frames == [] then None
    else if frames[0].Malformed? then Some(ProtocolFailure(frames[0].line))
    else FirstMalformed(frames[1..])
  }

  lemma {:induction false} ReadLinesSettles(s: State, frames: seq<Frame>)
    requires s.completion.None?
    ensures FirstTerminal(s, frames).Some? ==> ReadLines(s, frames).completion == FirstTerminal(s, frames)
    ensures FirstTerminal(s, frames).None? ==> ReadLines(s, frames).completion.None?
    ensures FirstTerminal(s, frames).None? && FirstMalformed(frames).None? ==> ReadLines(s, frames).microtasks == s.microtasks
    ensures FirstTerminal(s, frames).None? && FirstMalformed(frames).Some? ==>
      var tasks := ReadLines(s, frames).microtasks;
      |tasks| > |s.microtasks| && tasks[..|s.microtasks|] == s.microtasks && tasks[|s.microtasks|] == Reject(FirstMalformed(frames).value)
    decreases |frames|
  {
    if frames != [] {
      var next := OnLine(s, frames[0], false);
      if frames[0].Complete? || frames[0].ErrorFrame? {
        LaterLinesKeep(next, frames[1..]);
      } else {
        ReadLinesSettles(next, frames[1..]);
        if frames[0].Malformed? {
          LaterLinesAppend(next, frames[1..]);
          assert next.microtasks[|s.microtasks|] == Reject(FirstMalformed(frames).value);
          assert next.microtasks[..|s.microtasks|] == s.microtasks;
        }
      }
    }
  }

  lemma {:induction false} LaterLinesKeep(s: State, frames: seq<Frame>)
    requires s.completion.Some?
    ensures ReadLines(s, frames).completion == s.completion
    decreases |frames|
  {
    if frames != [] { LaterLinesKeep(OnLine(s, frames[0], false), frames[1..]); }
  }

  lemma {:induction false} LaterLinesAppend(s: State, frames: seq<Frame>)
    ensures s.microtasks <= ReadLines(s, frames).microtasks
    decreases |frames|
  {
    if frames != [] { LaterLinesAppend(OnLine(s, frames[0], false), frames[1..]); }
  }

  /** A chunk that arrives with an empty microtask queue and nothing settled: a complete or
      error frame anywhere in it beats every malformed line in it, before or after. */
  lemma ChunkOutcome(s: State, frames: seq<Frame>)
    requires s.completion.None? && s.microtasks == []
    ensures Drain(ReadLines(s, frames)).completion
         == if FirstTerminal(s, frames).Some? then FirstTerminal(s, frames)
            else if FirstMalformed(frames).Some? then Some(Broken(FirstMalformed(frames).value)) else None
  {
    ReadLinesSettles(s, frames);
    var t := ReadLines(s, frames);
    if t.completion.Some? {
      DrainKeepsSettled(t);
    } else if FirstMalformed(frames).Some? {
      assert t.microtasks[0] == Reject(FirstMalformed(frames).value);
      DrainKeepsSettled(OnMicrotask(t));
    }
  }

  lemma {:induction false} DrainKeepsSettled(s: State)
    requires s.completion.Some?
    ensures Drain(s).completion == s.completion
    decreases Weight(s.microtasks)
  {
    if s.microtasks != [] {
      MicrotaskProgress(s);
      DrainKeepsSettled(OnMicrotask(s));
    }
  }

  /** In separate chunks the malformed line wins; in one chunk it loses. */
  lemma MalformedThenComplete(s: State, line: string, output: string)
    requires s.completion.None? && s.microtasks == []
    ensures Drain(ReadLines(s, [Malformed(line), Complete(output, false)])).completion
         == Some(Success(FinalOutput(s.stdout, output), false, s.work.counters))
    ensures Drain(ReadLines(Drain(ReadLines(s, [Malformed(line)])), [Complete(output, false)])).completion
         == Some(Broken(ProtocolFailure(line)))
  {
    hide ReadLines, FinalOutput;
    var both := [Malformed(line), Complete(output, false)];
    assert both[1..] == [Complete(output, false)];
    assert FirstTerminal(s, both) == FirstTerminal(OnLine(s, Malformed(line), false), [Complete(output, false)]);
    ChunkOutcome(s, both);
    ChunkOutcome(s, [Malformed(line)]);
    var t := Drain(ReadLines(s, [Malformed(line)]));
    LaterLinesKeep(t, [Complete(output, false)]);
    DrainKeepsSettled(ReadLines(t, [Complete(output, false)]));
  }
}
