/** What the run tells the caller: which event settles an execution with what, what a timeout
    does, and what the counters in the details count. */
module Settlement {
  import opened Wrappers
  import opened JsonText
  import opened Text
  import opened Protocol

  // --- the history of a run ---

  /** Everything printed, in order. */
  function Printed(events: seq<Event>): string {
    if events == [] then ""
    else (if events[0].Line? && events[0].frame.Stdout? then events[0].frame.text else "") + Printed(events[1..])
  }

  /** Everything the child wrote to stderr. */
  function Complaints(events: seq<Event>): string {
    if events == [] then "" else (if events[0].Stderr? then events[0].text else "") + Complaints(events[1..])
  }

  /** What the last exit or close event said. */
  function LastExit(events: seq<Event>): Option<Exit> {
    if events == [] then None
    else if LastExit(events[1..]).Some? then LastExit(events[1..])
    else
      match events[0]
      case ProcessExit(code, signal) => Some(Exit(code, signal))
      case ProcessClose(code, signal) => Some(Exit(code, signal))
      case _ => None
  }

  lemma StepRecords(s: State, e: Event)
    requires Enabled(s, e)
    ensures Step(s, e).stdout == s.stdout + Printed([e]) && Step(s, e).stderr == s.stderr + Complaints([e])
    ensures s.completion.None? ==> Step(s, e).exit == if LastExit([e]).Some? then LastExit([e]) else s.exit
  {
    hide EndHandler, StartHandler, CountCall, FinalOutput;
    assert [e][1..] == [];
    assert s.stdout + "" == s.stdout && s.stderr + "" == s.stderr;
  }

  lemma OneThenMore(e: Event, rest: seq<Event>)
    ensures Printed([e] + rest) == Printed([e]) + Printed(rest)
    ensures Complaints([e] + rest) == Complaints([e]) + Complaints(rest)
    ensures LastExit([e] + rest) == if LastExit(rest).Some? then LastExit(rest) else LastExit([e])
  {
    assert ([e] + rest)[1..] == rest && [e][1..] == [];
    assert (if e.Line? && e.frame.Stdout? then e.frame.text else "") + "" == Printed([e]);
    assert (if e.Stderr? then e.text else "") + "" == Complaints([e]);
  }

  lemma {:induction false} RunRecords(s: State, events: seq<Event>)
    requires EnabledRun(s, events)
    ensures Run(s, events).stdout == s.stdout + Printed(events)
    ensures Run(s, events).stderr == s.stderr + Complaints(events)
    ensures Run(s, events).completion.None? ==>
      Run(s, events).exit == if LastExit(events).Some? then LastExit(events) else s.exit
    decreases |events|
  {
    if events == [] {
      assert s.stdout + "" == s.stdout && s.stderr + "" == s.stderr;
    } else {
      var e, rest := events[0], events[1..];
      assert events == [e] + rest;
      SettlesOnce(Step(s, e), rest);
      SettlesOnce(s, [e]);
      assert Run(s, [e]) == Step(s, e) by { assert [e][1..] == []; }
      StepRecords(s, e);
      RunRecords(Step(s, e), rest);
      hide Step, Enabled, Printed, Complaints, LastExit;
      OneThenMore(e, rest);
      Associative(s.stdout, Printed([e]), Printed(rest));
      Associative(s.stderr, Complaints([e]), Complaints(rest));
    }
  }

  // --- what settles, and with what ---

  /** The one event by which an unsettled execution settles at once: a complete frame succeeds
      with everything printed before its output, an error frame fails with its message, an abort
      and a transport error fail as such, and a microtask hands on the rejection that it carries,
      or that of the close, with all of stderr and the last exit. Nothing else settles. */
  lemma FirstSettlement(events: seq<Event>, e: Event)
    requires EnabledRun(START, events) && Run(START, events).completion.None? && Enabled(Run(START, events), e)
    ensures var t := Run(START, events);
      Step(t, e).completion ==
        match e
        case Line(Complete(output, hasReport), _) =>
          Some(Success(if Printed(events) == "" then output else Trim(IsJsSpace, Printed(events) + output), hasReport, t.work.counters))
        case Line(ErrorFrame(message), _) => Some(PythonFailure(message, t.work.counters))
        case Abort => Some(Aborted)
        case ProcessError(message) => Some(TransportFailure(message))
        case RunMicrotask =>
          (match t.microtasks[0]
           case Reject(reason) => Some(Broken(reason))
           case Relay(_) => None
           case CloseCheck => Some(ClosedEarly(Complaints(events), LastExit(events), t.work.counters)))
        case _ => None
  {
    RunRecords(START, events);
    assert "" + Printed(events) == Printed(events) && "" + Complaints(events) == Complaints(events);
    hide Run, EnabledRun, Printed, Complaints, LastExit, Trim, EndHandler, StartHandler, CountCall;
  }

  /** The same with the microtasks behind the event run to their end, from an unsettled execution
      with none of them waiting: malformed frames, throwing callbacks and the close settle too. */
  lemma SettlementOf(events: seq<Event>, e: Event)
    requires EnabledRun(START, events) && Enabled(Run(START, events), e)
    requires Run(START, events).completion.None? && Run(START, events).microtasks == []
    ensures var t := Run(START, events);
      Drain(Step(t, e)).completion ==
        match e
        case Line(Complete(output, hasReport), _) =>
          Some(Success(if Printed(events) == "" then output else Trim(IsJsSpace, Printed(events) + output), hasReport, t.work.counters))
        case Line(ErrorFrame(message), _) => Some(PythonFailure(message, t.work.counters))
        case Line(Malformed(line), _) => Some(Broken(ProtocolFailure(line)))
        case Line(ToolCall(_), true) => Some(Broken(CallbackFailure))
        case Line(Progress, true) => Some(Broken(CallbackFailure))
        case Line(Update(_), true) => Some(Broken(CallbackFailure))
        case StdoutClose => Some(ClosedEarly(Complaints(events), LastExit(events), t.work.counters))
        case Abort => Some(Aborted)
        case ProcessError(message) => Some(TransportFailure(message))
        case _ => None
  {
    FirstSettlement(events, e);
    RunRecords(START, events);
    assert "" + Complaints(events) == Complaints(events);
    hide Run, EnabledRun, Printed, Complaints, LastExit, Trim;
    DrainOne(Run(START, events), e);
  }

  /** Draining what one event queued. */
  lemma DrainOne(t: State, e: Event)
    requires Enabled(t, e) && t.completion.None? && t.microtasks == []
    ensures var next := Step(t, e);
      && (next.completion.Some? ==> Drain(next).completion == next.completion)
      && (next.completion.None? ==>
            Drain(next).completion ==
              match e
              case Line(Malformed(line), _) => Some(Broken(ProtocolFailure(line)))
              case Line(ToolCall(_), true) => Some(Broken(CallbackFailure))
              case Line(Progress, true) => Some(Broken(CallbackFailure))
              case Line(Update(_), true) => Some(Broken(CallbackFailure))
              case StdoutClose => Some(ClosedEarly(t.stderr, t.exit, t.work.counters))
              case _ => None)
  {
    var next := Step(t, e);
    if next.completion.Some? {
      DrainKeepsSettled(next);
    } else if next.microtasks != [] {
      DrainSingle(next);
      hide Drain;
      CountedAtClose(t, e);
    }
  }

  lemma CountedAtClose(t: State, e: Event)
    requires Enabled(t, e) && t.microtasks == [] && t.completion.None?
    ensures e.StdoutClose? ==> Step(t, e) == t.(stdoutClosed := true, microtasks := [CloseCheck])
  {
  }

  /** Draining a single microtask; a relayed rejection takes one more turn. */
  lemma DrainSingle(s: State)
    requires s.completion.None? && |s.microtasks| == 1
    ensures Drain(s).completion ==
      match s.microtasks[0]
      case Reject(reason) => Some(Broken(reason))
      case Relay(reason) => Some(Broken(reason))
      case CloseCheck => Some(ClosedEarly(s.stderr, s.exit, s.work.counters))
  {
    var next := OnMicrotask(s);
    if s.microtasks[0].Relay? {
      assert next.microtasks == [Reject(s.microtasks[0].reason)];
      DrainKeepsSettled(OnMicrotask(next));
    } else {
      DrainKeepsSettled(next);
    }
  }

  /** A throwing callback of a tool call takes two turns to reject, so a close that comes before
      they have run settles first; for a progress or update frame it takes one. */
  lemma ThrowAgainstClose(t: State, call: Call, message: string)
    requires t.completion.None? && t.microtasks == [] && !t.stdoutClosed
    ensures var thrown := Step(t, Line(ToolCall(call), true));
      Drain(Step(thrown, StdoutClose)).completion == Some(ClosedEarly(t.stderr, t.exit, thrown.work.counters))
    ensures Drain(Step(Step(t, Line(Update(message), true)), StdoutClose)).completion == Some(Broken(CallbackFailure))
  {
    var called := Step(Step(t, Line(ToolCall(call), true)), StdoutClose);
    assert called.microtasks == [Relay(CallbackFailure), CloseCheck];
    var relayed := OnMicrotask(called);
    assert relayed.microtasks == [CloseCheck, Reject(CallbackFailure)];
    DrainKeepsSettled(OnMicrotask(relayed));
    var updated := Step(Step(t, Line(Update(message), true)), StdoutClose);
    assert updated.microtasks == [Reject(CallbackFailure), CloseCheck];
    DrainKeepsSettled(OnMicrotask(updated));
  }

  // --- the timeout ---

  lemma StepCaller(s: State, e: Event)
    requires Enabled(s, e) && s.caller == s.completion && s.completion != Some(TimedOut)
    ensures !e.Timeout? ==> Step(s, e).caller == Step(s, e).completion && Step(s, e).completion != Some(TimedOut)
    ensures e.Timeout? ==> Step(s, e).completion == s.completion
    ensures e.Timeout? ==> Step(s, e).caller == if s.completion.None? then Some(TimedOut) else s.completion
  {
    hide EndHandler, StartHandler, CountCall, FinalOutput;
  }

  lemma {:induction false} NoTimeoutNoDifference(s: State, events: seq<Event>)
    requires EnabledRun(s, events) && s.caller == s.completion && s.completion != Some(TimedOut)
    requires forall e <- events :: !e.Timeout?
    ensures Run(s, events).caller == Run(s, events).completion && Run(s, events).completion != Some(TimedOut)
    decreases |events|
  {
    hide Step, Enabled;
    if events != [] {
      StepCaller(s, events[0]);
      NoTimeoutNoDifference(Step(s, events[0]), events[1..]);
    }
  }

  lemma {:induction false} EnabledParts(s: State, first: seq<Event>, rest: seq<Event>)
    requires EnabledRun(s, first + rest)
    ensures EnabledRun(s, first) && EnabledRun(Run(s, first), rest) && Run(s, first + rest) == Run(Run(s, first), rest)
    decreases |first|
  {
    hide Step, Enabled;
    if first == [] {
      assert first + rest == rest;
    } else {
      assert (first + rest)[1..] == first[1..] + rest;
      EnabledParts(Step(s, first[0]), first[1..], rest);
    }
  }

  /** Over every run: once a timeout has fired the caller has an answer, and the answer is that it
      timed out exactly when nothing had settled before the first timeout; otherwise it is that
      settlement. Without a timeout the caller is told what the execution settled with. */
  lemma TimeoutAnswers(events: seq<Event>, k: nat)
    requires EnabledRun(START, events) && k <= |events|
    requires forall i :: 0 <= i < k ==> !events[i].Timeout?
    requires k < |events| ==> events[k].Timeout?
    ensures EnabledRun(START, events[..k])
    ensures var before, end := Run(START, events[..k]), Run(START, events);
      if k == |events| then end.caller == end.completion && end.caller != Some(TimedOut)
      else
        && end.caller.Some?
        && (end.caller == Some(TimedOut) <==> before.completion.None?)
        && (before.completion.Some? ==> end.caller == before.completion)
  {
    hide Step, Enabled;
    var before, rest := events[..k], events[k..];
    assert events == before + rest;
    EnabledParts(START, before, rest);
    NoTimeoutNoDifference(START, before);
    if k < |events| {
      var s := Run(START, before);
      StepCaller(s, events[k]);
      SettlesOnce(Step(s, events[k]), rest[1..]);
    } else {
      assert before == events;
    }
  }

  // --- the counters ---

  /** The tools called, in order. */
  function ToolsCalled(events: seq<Event>): seq<string> {
    if events == [] then []
    else (if events[0].Line? && events[0].frame.ToolCall? then [events[0].frame.call.tool] else []) + ToolsCalled(events[1..])
  }

  function Returns(e: Event): bool {
    e.HandlerEnds? && e.ending.Returns?
  }

  function CharsReturned(events: seq<Event>): nat {
    if events == [] then 0 else (if Returns(events[0]) then events[0].ending.chars else 0) + CharsReturned(events[1..])
  }

  function HowMany(what: Event -> bool, events: seq<Event>): nat {
    if events == [] then 0 else (if what(events[0]) then 1 else 0) + HowMany(what, events[1..])
  }

  function Throws(e: Event): bool {
    e.HandlerEnds? && e.ending.Throws?
  }

  lemma StepCounts(s: State, e: Event)
    requires Enabled(s, e)
    ensures var c, d := s.work.counters, Step(s, e).work.counters;
      && d.names == c.names + (if e.Line? && e.frame.ToolCall? then [e.frame.call.tool] else [])
      && d.calls == c.calls + (if e.Line? && e.frame.ToolCall? then 1 else 0)
      && d.results == c.results + (if Returns(e) then 1 else 0)
      && d.resultChars == c.resultChars + (if Returns(e) then e.ending.chars else 0)
      && d.errors + s.work.countedTwice == c.errors + (if Throws(e) then 1 else 0) + Step(s, e).work.countedTwice
      && Step(s, e).work.countedTwice
         == s.work.countedTwice + if Returns(e) && !e.ending.serialises && s.work.stdinOpen then 1 else 0
  {
    assert s.work.counters.names + [] == s.work.counters.names;
  }

  lemma {:induction false} RunCounts(s: State, events: seq<Event>)
    requires EnabledRun(s, events)
    ensures var c, d := s.work.counters, Run(s, events).work.counters;
      && d.names == c.names + ToolsCalled(events) && d.calls == c.calls + |ToolsCalled(events)|
      && d.results == c.results + HowMany(Returns, events)
      && d.resultChars == c.resultChars + CharsReturned(events)
      && d.errors + s.work.countedTwice == c.errors + HowMany(Throws, events) + Run(s, events).work.countedTwice
    decreases |events|
  {
    if events == [] {
      assert s.work.counters.names + [] == s.work.counters.names;
    } else {
      StepCounts(s, events[0]);
      hide Step, Enabled;
      RunCounts(Step(s, events[0]), events[1..]);
      Associative(s.work.counters.names, if events[0].Line? && events[0].frame.ToolCall? then [events[0].frame.call.tool] else [],
                  ToolsCalled(events[1..]));
    }
  }

  /** Over every run the counters count what happened: the names are the tools called, in order,
      results and characters those of the handlers that returned, errors those that threw plus
      those that returned something that did not serialise while stdin was open. */
  lemma CountersTellTheRun(events: seq<Event>)
    requires EnabledRun(START, events)
    ensures var w := Run(START, events).work;
      && w.counters.names == ToolsCalled(events) && w.counters.calls == |ToolsCalled(events)|
      && w.counters.results == HowMany(Returns, events) && w.counters.resultChars == CharsReturned(events)
      && w.counters.errors == HowMany(Throws, events) + w.countedTwice
  {
    RunCounts(START, events);
    assert [] + ToolsCalled(events) == ToolsCalled(events);
  }
}
