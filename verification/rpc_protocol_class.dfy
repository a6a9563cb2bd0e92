/** The class that carries the Node side: each event handler updates the fields in place and
    has the effect of one step of the protocol. */
module ProtocolClass {
  import opened Wrappers
  import opened JsonText
  import opened Text
  import opened Protocol

  lemma StepOfHandler(s: State, h: nat, ending: Ending)
    requires h in s.work.running
    ensures Step(s, HandlerEnds(h, ending)) == s.(work := EndHandler(s.work, h, ending))
  {
  }

  // --- detail snapshots, which refer to arrays of names ---

  /** A JavaScript array of tool names, which push changes in place. */
  class NameList {
    var items: seq<string>

    constructor (items: seq<string>)
      ensures this.items == items
    {
      this.items := items;
    }

    method Push(name: string)
      modifies this
      ensures items == old(items) + [name]
    {
      items := items + [name];
    }
  }

  /** The details object as it is handed out: numbers, and a reference to an array of names. */
  datatype Details = Details(calls: nat, names: NameList, resultChars: nat, results: nat, errors: nat)

  ghost function Look(d: Details): Counters
    reads d.names
  {
    Counters(d.calls, d.names.items, d.resultChars, d.results, d.errors)
  }

  function ListsOf(o: Option<Outcome<Details>>): set<NameList> {
    if o.Some? && (o.value.Success? || o.value.PythonFailure? || o.value.ClosedEarly?) then {o.value.details.names} else {}
  }

  /** An outcome as whoever holds it sees it now. */
  ghost function LookAt(o: Option<Outcome<Details>>): (seen: Option<Outcome<Counters>>)
    reads ListsOf(o)
    ensures seen.None? <==> o.None?
  {
    match o
    case None => None
    case Some(Success(output, hasReport, d)) => Some(Success(output, hasReport, Look(d)))
    case Some(PythonFailure(message, d)) => Some(PythonFailure(message, Look(d)))
    case Some(ClosedEarly(stderr, exit, d)) => Some(ClosedEarly(stderr, exit, Look(d)))
    case Some(Broken(failure)) => Some(Broken(failure))
    case Some(TransportFailure(message)) => Some(TransportFailure(message))
    case Some(Aborted) => Some(Aborted)
    case Some(TimedOut) => Some(TimedOut)
  }

  lemma LookAtFailure(failure: Failure)
    ensures LookAt(Some(Broken(failure))) == Some(Broken(failure)) && ListsOf(Some(Broken(failure))) == {}
  {
  }

  lemma LookAtEarlyClose(stderr: string, exit: Option<Exit>, d: Details)
    ensures LookAt(Some(ClosedEarly(stderr, exit, d))) == Some(ClosedEarly(stderr, exit, Look(d)))
    ensures ListsOf(Some(ClosedEarly(stderr, exit, d))) == {d.names}
  {
  }

  class RpcProtocol {
    // the promise behind waitForCompletion, and the race with the timeout
    var completed: bool
    var promise: Option<Outcome<Details>>
    var caller: Option<Outcome<Details>>
    // streams and process
    var stdout: string
    var stderr: string
    var processExit: Option<Exit>
    var stdoutClosed: bool
    var stdinOpen: bool
    var written: seq<Sent>
    // the event loop
    var microtasks: seq<Microtask>
    var handlers: map<nat, Call>
    // metrics
    var nestedToolCalls: nat
    const nestedToolNames: NameList
    var nestedResultChars: nat
    var nestedResultCount: nat
    var nestedErrors: nat
    // history: double counts, abandoned calls, and the arrays in snapshots handed out
    ghost var countedTwice: nat
    ghost var abandoned: nat
    ghost var snapshots: set<NameList>

    ghost predicate Valid()
      reads this
    {
      && completed == promise.Some?
      && nestedToolNames !in snapshots
      && ListsOf(promise) <= snapshots && ListsOf(caller) <= snapshots
    }

    ghost function Abstract(): State
      reads this, nestedToolNames, ListsOf(promise), ListsOf(caller)
    {
      State(LookAt(promise), LookAt(caller), stdout, stderr, processExit, stdoutClosed, microtasks, WorkNow())
    }

    ghost function WorkNow(): Work
      reads this, nestedToolNames
    {
      Work(Counters(nestedToolCalls, nestedToolNames.items, nestedResultChars, nestedResultCount, nestedErrors),
           handlers, stdinOpen, written, countedTwice, abandoned)
    }

    constructor ()
      ensures Valid() && Abstract() == START && fresh(nestedToolNames) && snapshots == {}
    {
      completed, promise, caller := false, None, None;
      stdout, stderr, processExit, stdoutClosed, stdinOpen, written := "", "", None, false, true, [];
      microtasks, handlers := [], map[];
      nestedToolCalls, nestedResultChars, nestedResultCount, nestedErrors := 0, 0, 0, 0;
      nestedToolNames := new NameList([]);
      countedTwice, abandoned, snapshots := 0, 0, {};
    }

    /** The counters as they stand, with a copy of the array of names. */
    method BuildExecutionDetails() returns (details: Details)
      requires Valid()
      modifies this`snapshots
      ensures Valid() && Abstract() == old(Abstract())
      ensures Look(details) == WorkNow().counters
      ensures fresh(details.names) && snapshots == old(snapshots) + {details.names}
    {
      hide LookAt;
      var names := new NameList(nestedToolNames.items);
      details := Details(nestedToolCalls, names, nestedResultChars, nestedResultCount, nestedErrors);
      snapshots := snapshots + {names};
    }

    /** resolveOnce and rejectOnce. */
    method SettleOnce(outcome: Outcome<Details>)
      requires Valid() && ListsOf(Some(outcome)) <= snapshots
      modifies this`completed, this`promise, this`caller
      ensures Valid() && Abstract() == Settle(old(Abstract()), LookAt(Some(outcome)).value)
      ensures completed && promise == if old(completed) then old(promise) else Some(outcome)
    {
      hide LookAt, ListsOf;
      if completed {
        return;
      }
      completed := true;
      promise := Some(outcome);
      if caller.None? {
        caller := Some(outcome);
      }
    }

    method AppendToStdout(text: string)
      modifies this`stdout
      ensures stdout == AppendStdout(old(stdout), text) == old(stdout) + text
    {
      if text == "" {
        return;
      }
      stdout := if stdout != "" then stdout + text else text;
    }

    /** The synchronous part of handleToolCall, up to the await of the tool. */
    method HandleToolCall(call: Call, callbackThrows: bool)
      requires Valid()
      modifies this, nestedToolNames
      ensures Valid() && Abstract() == OnLine(old(Abstract()), ToolCall(call), callbackThrows)
      ensures old(snapshots) <= snapshots && fresh(snapshots - old(snapshots))
    {
      hide CountCall, LookAt, ListsOf;
      ReportToolCall(call);
      if callbackThrows {
        microtasks := microtasks + [Relay(CallbackFailure)];
        abandoned := abandoned + 1;
        return;
      }
      handlers := handlers[nestedToolCalls := call];
    }

    /** The call is counted, and the update callback gets a snapshot. */
    method ReportToolCall(call: Call)
      requires Valid()
      modifies this`nestedToolCalls, this`snapshots, nestedToolNames
      ensures Valid() && Abstract() == old(Abstract()).(work := CountCall(old(Abstract()).work, call))
      ensures nestedToolCalls == old(nestedToolCalls) + 1
      ensures old(snapshots) <= snapshots && fresh(snapshots - old(snapshots))
    {
      hide CountCall, LookAt, ListsOf;
      CountToolCall(call);
      var details := BuildExecutionDetails();
    }

    method CountToolCall(call: Call)
      requires Valid()
      modifies this`nestedToolCalls, nestedToolNames
      ensures WorkNow() == CountCall(old(WorkNow()), call)
      ensures nestedToolCalls == old(nestedToolCalls) + 1
    {
      nestedToolCalls := nestedToolCalls + 1;
      nestedToolNames.Push(call.tool);
    }

    /** A line event with its frame parsed; a malformed line rejects through a microtask. */
    method HandleLine(frame: Frame, callbackThrows: bool)
      requires Valid() && !stdoutClosed
      modifies this, nestedToolNames
      ensures Valid() && Abstract() == Step(old(Abstract()), Line(frame, callbackThrows))
      ensures old(snapshots) <= snapshots && fresh(snapshots - old(snapshots))
    {
      hide CountCall, StartHandler, Trim, Settle, AppendStdout, LookAt, ListsOf;
      match frame {
        case ToolCall(call) =>
          HandleToolCall(call, callbackThrows);
        case Stdout(text) =>
          AppendToStdout(text);
        case Complete(output, hasReport) =>
          HandleComplete(output, hasReport);
        case ErrorFrame(message) =>
          HandleErrorFrame(message);
        case Malformed(line) =>
          microtasks := microtasks + [Reject(ProtocolFailure(line))];
        case ToolResultFrame =>
        case Progress =>
          Notify(callbackThrows);
        case Update(message) =>
          Notify(callbackThrows);
      }
    }

    method HandleComplete(output: string, hasReport: bool)
      requires Valid()
      modifies this`completed, this`promise, this`caller, this`snapshots
      ensures Valid() && Abstract() == OnLine(old(Abstract()), Complete(output, hasReport), false)
      ensures old(snapshots) <= snapshots && fresh(snapshots - old(snapshots))
    {
      hide Trim, Settle;
      var finalOutput := if stdout != "" then Trim(IsJsSpace, stdout + output) else output;
      var details := BuildExecutionDetails();
      SettleOnce(Success(finalOutput, hasReport, details));
    }

    method HandleErrorFrame(message: string)
      requires Valid()
      modifies this`completed, this`promise, this`caller, this`snapshots
      ensures Valid() && Abstract() == OnLine(old(Abstract()), ErrorFrame(message), false)
      ensures old(snapshots) <= snapshots && fresh(snapshots - old(snapshots))
    {
      hide Settle;
      var details := BuildExecutionDetails();
      SettleOnce(PythonFailure(message, details));
    }

    /** The update callback of a progress or update frame gets a snapshot, and may throw. */
    method Notify(callbackThrows: bool)
      requires Valid()
      modifies this`snapshots, this`microtasks
      ensures Valid()
      ensures Abstract() == if callbackThrows then Queue(old(Abstract()), Reject(CallbackFailure)) else old(Abstract())
      ensures old(snapshots) <= snapshots && fresh(snapshots - old(snapshots))
    {
      hide LookAt;
      var details := BuildExecutionDetails();
      if callbackThrows { microtasks := microtasks + [Reject(CallbackFailure)]; }
    }

    method HandleStdoutClose()
      requires Valid() && !stdoutClosed
      modifies this`stdoutClosed, this`microtasks
      ensures Valid() && Abstract() == Step(old(Abstract()), StdoutClose)
    {
      stdoutClosed := true;
      if completed {
        return;
      }
      microtasks := microtasks + [CloseCheck];
    }

    method HandleStderr(text: string)
      requires Valid()
      modifies this`stderr
      ensures Valid() && Abstract() == Step(old(Abstract()), Stderr(text))
    {
      hide LookAt;
      stderr := stderr + text;
    }

    /** The exit and close events of the process, which do the same. */
    method HandleProcessEnd(code: Option<int>, signal: Option<string>)
      requires Valid()
      modifies this`processExit
      ensures Valid()
      ensures Abstract() == Step(old(Abstract()), ProcessExit(code, signal)) == Step(old(Abstract()), ProcessClose(code, signal))
    {
      if completed {
        return;
      }
      processExit := Some(Exit(code, signal));
    }

    method HandleProcessError(message: string)
      requires Valid()
      modifies this`completed, this`promise, this`caller
      ensures Valid() && Abstract() == Step(old(Abstract()), ProcessError(message))
      ensures completed && promise == if old(completed) then old(promise) else Some(TransportFailure(message))
    {
      SettleOnce(TransportFailure(message));
    }

    method HandleAbort()
      requires Valid()
      modifies this`completed, this`promise, this`caller
      ensures Valid() && Abstract() == Step(old(Abstract()), Abort)
      ensures completed && promise == if old(completed) then old(promise) else Some(Aborted)
    {
      SettleOnce(Aborted);
    }

    method HandleStdinDestroyed()
      requires Valid()
      modifies this`stdinOpen
      ensures Valid() && Abstract() == Step(old(Abstract()), StdinDestroyed)
    {
      hide LookAt;
      stdinOpen := false;
    }

    /** The timer inside waitForCompletion, which rejects the race and not the completion. */
    method HandleTimeout()
      requires Valid()
      modifies this`caller
      ensures Valid() && Abstract() == Step(old(Abstract()), Timeout)
      ensures caller.Some? && (caller == Some(TimedOut) <==> old(caller) in {None, Some(TimedOut)})
    {
      if caller.None? {
        caller := Some(TimedOut);
      }
    }

    method Send(frame: Sent)
      modifies this`written
      ensures WorkNow() == Write(old(WorkNow()), frame)
    {
      if stdinOpen {
        written := written + [frame];
      }
    }

    /** handleToolCall after the await: count, then send, and count again if sending throws. */
    method HandleToolEnd(h: nat, ending: Ending)
      requires Valid() && h in handlers
      modifies this`nestedResultCount, this`nestedResultChars, this`nestedErrors, this`written, this`handlers, this`countedTwice
      ensures Valid() && Abstract() == Step(old(Abstract()), HandlerEnds(h, ending))
    {
      hide Step;
      ghost var before := Abstract();
      EndToolCall(h, ending);
      assert Abstract() == before.(work := EndHandler(before.work, h, ending));
      StepOfHandler(before, h, ending);
    }

    /** Counting and sending touch the metrics, the handlers and the pipe, nothing else. */
    method EndToolCall(h: nat, ending: Ending)
      requires Valid() && h in handlers
      modifies this`nestedResultCount, this`nestedResultChars, this`nestedErrors, this`written, this`handlers, this`countedTwice
      ensures WorkNow() == EndHandler(old(WorkNow()), h, ending)
    {
      hide Write;
      match ending {
        case Throws(error) =>
          HandleToolError(h, error);
        case Returns(v, chars, serialises, serialiseError) =>
          nestedResultCount := nestedResultCount + 1;
          nestedResultChars := nestedResultChars + chars;
          if stdinOpen && !serialises {
            countedTwice := countedTwice + 1;
            HandleToolError(h, serialiseError);
          } else {
            var frame := Sent(h, handlers[h].id, Value(v));
            handlers := handlers - {h};
            Send(frame);
          }
      }
    }

    /** The catch clause of handleToolCall. */
    method HandleToolError(h: nat, error: Json)
      requires Valid() && h in handlers
      modifies this`nestedErrors, this`written, this`handlers
      ensures var w := old(WorkNow());
        WorkNow()
        == Write(w.(counters := w.counters.(errors := w.counters.errors + 1), running := w.running - {h}),
                 Sent(h, w.running[h].id, Error(error)))
    {
      nestedErrors := nestedErrors + 1;
      var frame := Sent(h, handlers[h].id, Error(error));
      handlers := handlers - {h};
      Send(frame);
    }

    method RunNextMicrotask()
      requires Valid() && microtasks != []
      modifies this`completed, this`promise, this`caller, this`snapshots, this`microtasks
      ensures Valid() && Abstract() == Step(old(Abstract()), RunMicrotask)
      ensures old(snapshots) <= snapshots && fresh(snapshots - old(snapshots))
    {
      hide Settle, LookAt, ListsOf;
      var task := TakeMicrotask();
      match task {
        case Reject(reason) =>
          LookAtFailure(reason);
          SettleOnce(Broken(reason));
        case Relay(reason) =>
          microtasks := microtasks + [Reject(reason)];
        case CloseCheck =>
          RunCloseCheck();
      }
    }

    method TakeMicrotask() returns (task: Microtask)
      requires Valid() && microtasks != []
      modifies this`microtasks
      ensures Valid() && task == old(microtasks)[0]
      ensures Abstract() == old(Abstract()).(microtasks := old(microtasks)[1..])
    {
      hide LookAt, ListsOf;
      task := microtasks[0];
      microtasks := microtasks[1..];
    }

    /** The microtask that the close of stdout queued. */
    method RunCloseCheck()
      requires Valid()
      modifies this`completed, this`promise, this`caller, this`snapshots
      ensures Valid()
      ensures var s := old(Abstract()); Abstract() == Settle(s, ClosedEarly(s.stderr, s.exit, s.work.counters))
      ensures old(snapshots) <= snapshots && fresh(snapshots - old(snapshots))
    {
      if completed {
        return;
      }
      hide LookAt, ListsOf;
      var details := BuildExecutionDetails();
      LookAtEarlyClose(stderr, processExit, details);
      SettleOnce(ClosedEarly(stderr, processExit, details));
    }

    /** The event loop between two events: run microtasks until none is left. */
    method DrainMicrotasks()
      requires Valid()
      modifies this
      ensures Valid() && Abstract() == Drain(old(Abstract()))
      ensures old(snapshots) <= snapshots && fresh(snapshots - old(snapshots))
    {
      hide LookAt, Settle;
      while microtasks != []
        invariant Valid() && Drain(Abstract()) == Drain(old(Abstract()))
        invariant old(snapshots) <= snapshots && fresh(snapshots - old(snapshots))
        decreases Weight(microtasks)
      {
        MicrotaskProgress(Abstract());
        RunNextMicrotask();
      }
    }

    /** Whatever happens next, it goes to its handler; no snapshot handed out before changes. */
    method HandleEvent(e: Event)
      requires Valid() && Enabled(Abstract(), e)
      modifies this, nestedToolNames
      ensures Valid() && Abstract() == Step(old(Abstract()), e)
      ensures old(snapshots) <= snapshots && fresh(snapshots - old(snapshots))
      ensures forall names <- old(snapshots) :: names.items == old(names.items)
    {
      hide Step, LookAt;
      match e {
        case Line(frame, callbackThrows) => HandleLine(frame, callbackThrows);
        case StdoutClose => HandleStdoutClose();
        case Stderr(text) => HandleStderr(text);
        case ProcessExit(code, signal) => HandleProcessEnd(code, signal);
        case ProcessClose(code, signal) => HandleProcessEnd(code, signal);
        case ProcessError(message) => HandleProcessError(message);
        case Abort => HandleAbort();
        case Timeout => HandleTimeout();
        case StdinDestroyed => HandleStdinDestroyed();
        case HandlerEnds(h, ending) => HandleToolEnd(h, ending);
        case RunMicrotask => RunNextMicrotask();
      }
    }

    /** Any run of events: the object follows the protocol's run, and every snapshot handed out
        before it keeps its contents to the end, the one in the settlement included. */
    method HandleEvents(events: seq<Event>)
      requires Valid() && EnabledRun(Abstract(), events)
      modifies this, nestedToolNames
      ensures Valid() && Abstract() == Run(old(Abstract()), events)
      ensures old(snapshots) <= snapshots && fresh(snapshots - old(snapshots))
      ensures forall names <- old(snapshots) :: names.items == old(names.items)
    {
      hide Step, LookAt, Enabled;
      for i := 0 to |events|
        invariant Valid() && EnabledRun(Abstract(), events[i..])
        invariant Run(Abstract(), events[i..]) == Run(old(Abstract()), events)
        invariant old(snapshots) <= snapshots && fresh(snapshots - old(snapshots))
        invariant forall names <- old(snapshots) :: names.items == old(names.items)
      {
        assert events[i..][1..] == events[i + 1..];
        HandleEvent(events[i]);
      }
    }
  }
}
