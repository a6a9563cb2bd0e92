/** The session object and the shared recovery records, as handlers change them in place. */
module SessionClass {
  import opened Wrappers
  import opened Session

  class RecoveryState {
    var autoRouted: bool
    var firstToolPath: Option<ToolPath>
    var routedToCodeExecution: bool
    var codeExecutionAttempts: nat
    var recoveryAttempted: bool
    var failureClass: Option<FailureClass>
    var terminalState: Option<Terminal>
    ghost const number: nat

    ghost function Value(): Record
      reads this
    {
      Record(autoRouted, firstToolPath, routedToCodeExecution, codeExecutionAttempts, recoveryAttempted, failureClass, terminalState)
    }

    constructor (ghost number: nat)
      ensures Value() == NEW_RECORD && this.number == number
    {
      autoRouted, firstToolPath, routedToCodeExecution, codeExecutionAttempts := false, None, false, 0;
      recoveryAttempted, failureClass, terminalState := false, None, None;
      this.number := number;
    }

    method NoteAutomaticRouting()
      modifies this
      ensures Value() == old(Value()).(autoRouted := true)
    {
      autoRouted := true;
    }

    method NoteCodeExecutionAttempt()
      modifies this
      ensures Value() == NoteAttempt(old(Value()))
    {
      routedToCodeExecution := true;
      if firstToolPath.None? {
        firstToolPath := Some(ViaCodeExecution);
      }
      codeExecutionAttempts := codeExecutionAttempts + 1;
    }

    method ArmAutomaticRecovery(settings: Settings, failure: FailureClass) returns (armed: bool)
      modifies this
      ensures armed == CanRecover(settings, old(Value()))
      ensures Value() == if armed then Arm(old(Value()), failure) else old(Value())
    {
      if !(settings.autoRecover && settings.maxAttempts.GetOr(1) > 0 && codeExecutionAttempts > 0 && !recoveryAttempted) {
        return false;
      }
      recoveryAttempted := true;
      failureClass := Some(failure);
      return true;
    }

    method NoteCodeExecutionSuccess()
      modifies this
      ensures Value() == old(Value()).(terminal := Some(Succeeded))
    {
      terminalState := Some(Succeeded);
    }

    method NoteCodeExecutionFailure()
      modifies this
      ensures Value() == NoteFailure(old(Value()))
    {
      terminalState := Some(if recoveryAttempted then FailedAfterRecovery else FailedWithoutRecovery);
    }
  }

  ghost function Values(states: seq<RecoveryState>): (values: seq<Record>)
    reads states
    ensures |values| == |states|
    ensures forall i :: 0 <= i < |states| ==> values[i] == states[i].Value()
  {
    seq(|states|, i requires 0 <= i < |states| reads states => states[i].Value())
  }

  ghost function Numbers(captured: map<nat, RecoveryState>): (numbers: map<nat, nat>)
    ensures numbers.Keys == captured.Keys
    ensures forall x <- captured :: numbers[x] == captured[x].number
  {
    map x | x in captured :: captured[x].number
  }

  /** The session state with the host's tool list. Each execution captures the record that was
      current when it started. */
  class PtcSession {
    const settings: Settings
    var activeToolsBeforeRouting: Option<seq<string>>
    var pendingRecoveryPrompt: Option<FailureClass>
    var recoveryAllowed: bool
    var recoveryState: RecoveryState?
    var activeTools: seq<string>
    var captured: map<nat, RecoveryState>
    var executions: nat
    ghost var created: seq<RecoveryState>
    ghost var injected: nat

    ghost predicate Ok()
      reads this
    {
      && (forall i :: 0 <= i < |created| ==> created[i].number == i)
      && (recoveryState != null ==> Holds(recoveryState))
      && (forall x <- captured :: Holds(captured[x]) && x < executions)
    }

    ghost predicate Holds(r: RecoveryState)
      reads this
    {
      r.number < |created| && created[r.number] == r
    }

    ghost function Abstract(): (s: State)
      requires Ok()
      reads this, created
      ensures Wf(s)
    {
      State(Values(created), if recoveryState == null then None else Some(recoveryState.number), pendingRecoveryPrompt,
            recoveryAllowed, activeToolsBeforeRouting, activeTools, Numbers(captured), executions, injected)
    }

    constructor (settings: Settings)
      ensures Ok() && Abstract() == START && this.settings == settings && created == []
    {
      this.settings := settings;
      activeToolsBeforeRouting, pendingRecoveryPrompt, recoveryAllowed, recoveryState := None, None, true, null;
      activeTools, captured, executions, created, injected := [], map[], 0, [], 0;
    }

    method CreateRecoveryState()
      requires Ok()
      modifies this`recoveryState, this`created
      ensures Ok() && Abstract() == WithNewRecord(old(Abstract()))
      ensures recoveryState != null && fresh(recoveryState) && created == old(created) + [recoveryState]
    {
      hide Values, Numbers;
      recoveryState := new RecoveryState(|created|);
      created := created + [recoveryState];
      assert Values(created) == old(Values(created)) + [NEW_RECORD];
    }

    method GetRequestRecoveryState() returns (state: RecoveryState)
      requires Ok()
      modifies this`recoveryState, this`created
      ensures Ok() && Abstract() == WithRecord(old(Abstract()))
      ensures state == recoveryState && Holds(state)
      ensures created == old(created) || (created == old(created) + [state] && fresh(state))
    {
      if recoveryState == null {
        CreateRecoveryState();
      }
      state := recoveryState;
    }

    method HandleBeforeAgentStart(prompt: Option<Prompt>)
      requires Ok()
      modifies this, created
      ensures Ok() && Abstract() == Step(settings, old(Abstract()), BeforeAgentStart(prompt))
    {
      hide Values, Numbers, Route;
      pendingRecoveryPrompt := None;
      recoveryAllowed := if prompt.Some? then !prompt.value.isMutation else true;
      CreateRecoveryState();
      if prompt.None? {
        return;
      }
      ApplyAutoRouting(prompt.value);
    }

    method ApplyAutoRouting(p: Prompt)
      requires Ok() && recoveryState != null
      modifies this`activeToolsBeforeRouting, this`activeTools, recoveryState
      ensures Ok() && Abstract() == ApplyRouting(old(Abstract()), p)
    {
      hide Values, Numbers, Route;
      if !p.route {
        return;
      }
      recoveryState.NoteAutomaticRouting();
      assert Values(created) == old(Values(created))[recoveryState.number := recoveryState.Value()];
      var nextActiveTools := Route(activeTools, p.routable);
      if activeTools != nextActiveTools {
        activeToolsBeforeRouting := Some(activeTools);
        activeTools := nextActiveTools;
      }
    }

    /** The part of execute before it awaits the executor. */
    method StartExecution() returns (execution: nat)
      requires Ok()
      modifies this, created
      ensures Ok() && Abstract() == Step(settings, old(Abstract()), ExecutionStarts)
      ensures execution == old(executions) && execution in captured && captured[execution] == recoveryState
    {
      hide Values, Numbers, StartOn, WithRecord;
      var state := GetRequestRecoveryState();
      execution := StartOnCurrent();
    }

    method StartOnCurrent() returns (execution: nat)
      requires Ok() && recoveryState != null
      modifies this`captured, this`executions, recoveryState
      ensures Ok() && Abstract() == StartOn(old(Abstract()))
      ensures execution == old(executions) && execution in captured && captured[execution] == recoveryState
    {
      hide Values, Numbers, NoteAttempt;
      var state: RecoveryState := recoveryState;
      state.NoteCodeExecutionAttempt();
      assert Values(created) == old(Values(created))[state.number := NoteAttempt(old(Values(created))[state.number])];
      execution := executions;
      captured := captured[execution := state];
      executions := executions + 1;
      assert Numbers(captured) == old(Numbers(captured))[execution := state.number];
    }

    /** The execution has returned or thrown, and its hold on its record is gone. */
    method Release(execution: nat)
      requires Ok()
      modifies this`captured
      ensures Ok() && Abstract() == old(Abstract()).(running := old(Abstract()).running - {execution})
    {
      hide Values, Numbers;
      captured := captured - {execution};
      assert Numbers(captured) == old(Numbers(captured)) - {execution};
    }

    method ExecutionSucceeded(execution: nat)
      requires Ok()
      modifies this`captured, created
      ensures Ok() && Abstract() == Step(settings, old(Abstract()), ExecutionSucceeds(execution))
    {
      hide Values, Numbers;
      if execution in captured {
        var state := captured[execution];
        state.NoteCodeExecutionSuccess();
        assert Values(created) == old(Values(created))[state.number := state.Value()];
        Release(execution);
      }
    }

    method ExecutionFailed(execution: nat, isPythonError: bool, failure: Option<FailureClass>)
      requires Ok()
      modifies this`captured, this`pendingRecoveryPrompt, created
      ensures Ok() && Abstract() == Step(settings, old(Abstract()), ExecutionFails(execution, isPythonError, failure))
    {
      hide Fail;
      if execution in captured {
        CatchFailure(execution, isPythonError, failure);
        Release(execution);
      }
    }

    /** The catch branch of execute. */
    method CatchFailure(execution: nat, isPythonError: bool, failure: Option<FailureClass>)
      requires Ok() && execution in captured
      modifies this`pendingRecoveryPrompt, captured[execution]
      ensures Ok()
      ensures Abstract().(running := Abstract().running - {execution})
              == Fail(settings, old(Abstract()), ExecutionFails(execution, isPythonError, failure))
    {
      hide Values, Numbers, Arm, NoteFailure, CanRecover;
      var state := captured[execution];
      if isPythonError {
        if recoveryAllowed && failure.Some? {
          var armed := state.ArmAutomaticRecovery(settings, failure.value);
          if armed {
            pendingRecoveryPrompt := failure;
          }
        }
        state.NoteCodeExecutionFailure();
      } else {
        state.NoteCodeExecutionFailure();
      }
      assert Values(created) == old(Values(created))[state.number := state.Value()];
    }

    /** Appends the pending recovery message to the context, at most once. */
    method HandleContext() returns (message: Option<FailureClass>)
      requires Ok()
      modifies this`pendingRecoveryPrompt, this`injected
      ensures Ok() && Abstract() == Step(settings, old(Abstract()), ContextRequested)
      ensures message == old(pendingRecoveryPrompt)
      ensures injected == old(injected) + if message.Some? then 1 else 0
    {
      message := pendingRecoveryPrompt;
      if message.Some? {
        pendingRecoveryPrompt := None;
        injected := injected + 1;
      }
    }

    method HandleAgentEnd()
      requires Ok()
      modifies this`activeToolsBeforeRouting, this`activeTools, this`pendingRecoveryPrompt, this`recoveryAllowed, this`recoveryState
      ensures Ok() && Abstract() == Step(settings, old(Abstract()), AgentEnds)
    {
      hide Values, Numbers;
      if activeToolsBeforeRouting.Some? {
        activeTools := activeToolsBeforeRouting.value;
        activeToolsBeforeRouting := None;
      }
      pendingRecoveryPrompt := None;
      recoveryAllowed := true;
      recoveryState := null;
    }
  }
}
