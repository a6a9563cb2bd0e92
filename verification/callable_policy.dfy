/** Which tools Python code may call, and why an allowlisted tool is not among them. */
module CallablePolicy {
  import opened Wrappers
  import opened ToolRegistry

  datatype Settings = Settings(
    allowMutations: bool, allowBash: bool,
    callableTools: Option<seq<string>>, blockedTools: set<string>, trustedReadOnlyTools: set<string>)
  {
    predicate Allowlists(name: string) {
      callableTools.Some? && name in callableTools.value
    }
  }

  // --- the filter ---

  function ConfiguredCallers(tool: ToolInfo): set<Caller> {
    var configured := if tool.ptc.Some? then tool.ptc.value.callers else None;
    if configured.Some? && configured.value != [] then set c | c in configured.value
    else if tool.name == "code_execution" then {Direct}
    else if tool.IsBuiltin() then {Direct, CodeExecution}
    else if tool.ptc.Some? && tool.ptc.value.enabled == Some(true) then {Direct, CodeExecution}
    else {Direct}
  }

  /** Who may call a tool: whoever its metadata names, if it names anyone; otherwise the model
      always, and Python code for builtins and enabled extensions, but never for code_execution. */
  lemma CallersMean(tool: ToolInfo, c: Caller)
    ensures tool.ptc.Some? && tool.ptc.value.callers.Some? && tool.ptc.value.callers.value != [] ==>
      (c in ConfiguredCallers(tool) <==> c in tool.ptc.value.callers.value)
    ensures tool.ptc.None? || tool.ptc.value.callers.None? || tool.ptc.value.callers.value == [] ==>
      && Direct in ConfiguredCallers(tool)
      && (CodeExecution in ConfiguredCallers(tool)
          <==> tool.name != "code_execution" && (tool.IsBuiltin() || (tool.ptc.Some? && tool.ptc.value.enabled == Some(true))))
  {
  }

  predicate DeclaredCallable(tool: ToolInfo) {
    NormalizePtc(tool.ptc).Some? && NormalizePtc(tool.ptc).value.callable
  }

  predicate TrustedReadOnlyCustom(settings: Settings, tool: ToolInfo) {
    !tool.IsBuiltin() && DeclaredCallable(tool) && NormalizePtc(tool.ptc).value.isReadOnly && tool.name in settings.trustedReadOnlyTools
  }

  predicate OptInTool(tool: ToolInfo) {
    NormalizePtc(tool.ptc).Some? && NormalizePtc(tool.ptc).value.defaultExposure == Some(OptIn)
  }

  /** The filter predicate, branch by branch. */
  predicate Callable(settings: Settings, tool: ToolInfo) {
    if tool.name == "code_execution" then false
    else if tool.name in settings.blockedTools then false
    else if settings.callableTools.Some? && !settings.Allowlists(tool.name) then false
    else if tool.name == "bash" && !settings.allowBash then false
    else if OptInTool(tool) && !settings.Allowlists(tool.name) then false
    else if !settings.allowMutations && !tool.IsBuiltin() && !TrustedReadOnlyCustom(settings, tool) then false
    else if !settings.allowMutations && !tool.isReadOnly && !TrustedReadOnlyCustom(settings, tool) then false
    else CodeExecution in ConfiguredCallers(tool) && (tool.IsBuiltin() || DeclaredCallable(tool))
  }

  function CallableNames(settings: Settings, allTools: ToolMap): set<string> {
    set name | name in allTools && Callable(settings, allTools[name])
  }

  /** The tools that routing takes out of the active list: callable, and also open to direct calls. */
  function AutoRoutableNames(settings: Settings, allTools: ToolMap): (names: set<string>)
    ensures Keyed(allTools) ==> "code_execution" !in names
    ensures forall name :: name in names <==> name in CallableNames(settings, allTools) && Direct in ConfiguredCallers(allTools[name])
  {
    set name | name in CallableNames(settings, allTools) && Direct in ConfiguredCallers(allTools[name])
  }

  // --- the diagnosis ---

  datatype Reason = Blocked | NotPresent | BashDisabled | MissingCallable | CallersExclude | MutatingBlocked | NeedsTrust | NotCallable

  datatype Gap = Gap(name: string, reason: Reason)

  function Names(gaps: seq<Gap>): seq<string> {
    seq(|gaps|, i requires 0 <= i < |gaps| => gaps[i].name)
  }

  /** The cascade that names the cause for one allowlisted name. */
  function Diagnose(settings: Settings, allTools: ToolMap, name: string): Reason {
    if name in settings.blockedTools then Blocked
    else if name !in allTools then NotPresent
    else
      var tool := allTools[name];
      if tool.name == "bash" && !settings.allowBash then BashDisabled
      else if !tool.IsBuiltin() && !DeclaredCallable(tool) then MissingCallable
      else if CodeExecution !in ConfiguredCallers(tool) then CallersExclude
      else if !settings.allowMutations && !tool.isReadOnly then MutatingBlocked
      else if !settings.allowMutations && !tool.IsBuiltin() && !TrustedReadOnlyCustom(settings, tool) then NeedsTrust
      else NotCallable
  }

  /** The order in which a Set built from a list is iterated: first occurrences. */
  function InsertionOrder(names: seq<string>): seq<string> {
    if names == [] then []
    else
      var before := InsertionOrder(names[..|names| - 1]);
      if names[|names| - 1] in before then before else before + [names[|names| - 1]]
  }

  lemma {:induction false} InsertionOrderDistinct(names: seq<string>)
    ensures forall n :: n in InsertionOrder(names) <==> n in names
    ensures forall i, j :: 0 <= i < j < |InsertionOrder(names)| ==> InsertionOrder(names)[i] != InsertionOrder(names)[j]
  {
    if names != [] {
      InsertionOrderDistinct(names[..|names| - 1]);
      assert names == names[..|names| - 1] + [names[|names| - 1]];
    }
  }

  /** The names that are allowlisted and not callable, in the allowlist's order. */
  function Missing(names: seq<string>, callable: set<string>): seq<string> {
    if names == [] then []
    else Missing(names[..|names| - 1], callable) + (if names[|names| - 1] in callable then [] else [names[|names| - 1]])
  }

  /** Pushes one gap for each allowlisted name that is not callable. */
  method ReportAllowlistGaps(settings: Settings, allTools: ToolMap, allowSet: Option<seq<string>>) returns (gaps: seq<Gap>)
    requires Keyed(allTools)
    requires allowSet == (if settings.callableTools.Some? then Some(InsertionOrder(settings.callableTools.value)) else None)
    ensures allowSet.None? ==> gaps == []
    ensures allowSet.Some? ==> Names(gaps) == Missing(allowSet.value, CallableNames(settings, allTools))
    ensures forall gap <- gaps :: gap.reason == Diagnose(settings, allTools, gap.name)
  {
    gaps := [];
    if allowSet.None? || allowSet.value == [] {
      return;
    }
    hide Callable, Diagnose;
    var callableNames := CallableNames(settings, allTools);
    for i := 0 to |allowSet.value|
      invariant Names(gaps) == Missing(allowSet.value[..i], callableNames)
      invariant forall gap <- gaps :: gap.reason == Diagnose(settings, allTools, gap.name)
    {
      assert allowSet.value[..i + 1][..i] == allowSet.value[..i];
      var toolName := allowSet.value[i];
      if toolName in callableNames {
        continue;
      }
      var reason := FindReason(settings, allTools, toolName);
      gaps := gaps + [Gap(toolName, reason)];
    }
    assert allowSet.value[..|allowSet.value|] == allowSet.value;
  }

  /** The rest of the loop's body: the first check that explains the gap. */
  method FindReason(settings: Settings, allTools: ToolMap, toolName: string) returns (reason: Reason)
    requires Keyed(allTools)
    ensures reason == Diagnose(settings, allTools, toolName)
  {
    if toolName in settings.blockedTools {
      return Blocked;
    }
    if toolName !in allTools {
      return NotPresent;
    }
    var tool := allTools[toolName];
    var isTrustedReadOnlyCustom := TrustedReadOnlyCustom(settings, tool);
    if tool.name == "bash" && !settings.allowBash {
      return BashDisabled;
    }
    if !tool.IsBuiltin() && !DeclaredCallable(tool) {
      return MissingCallable;
    }
    if CodeExecution !in ConfiguredCallers(tool) {
      return CallersExclude;
    }
    if !settings.allowMutations && !tool.isReadOnly {
      return MutatingBlocked;
    }
    if !settings.allowMutations && !tool.IsBuiltin() && !isTrustedReadOnlyCustom {
      return NeedsTrust;
    }
    return NotCallable;
  }

  // --- main results ---

  lemma {:induction false} MissingMembers(names: seq<string>, callable: set<string>)
    requires forall i, j :: 0 <= i < j < |names| ==> names[i] != names[j]
    ensures forall n :: n in Missing(names, callable) <==> n in names && n !in callable
    ensures forall i, j :: 0 <= i < j < |Missing(names, callable)| ==> Missing(names, callable)[i] != Missing(names, callable)[j]
  {
    if names != [] {
      MissingMembers(names[..|names| - 1], callable);
      assert names == names[..|names| - 1] + [names[|names| - 1]];
    }
  }

  /** Every allowlisted name is callable or listed as a gap, never both, and is listed once. */
  lemma CallableOrGap(settings: Settings, allTools: ToolMap, name: string)
    requires settings.Allowlists(name)
    ensures var gaps := Missing(InsertionOrder(settings.callableTools.value), CallableNames(settings, allTools));
      && (name in gaps <==> name !in CallableNames(settings, allTools))
      && forall i, j :: 0 <= i < j < |gaps| ==> gaps[i] != gaps[j]
  {
    hide Callable;
    InsertionOrderDistinct(settings.callableTools.value);
    MissingMembers(InsertionOrder(settings.callableTools.value), CallableNames(settings, allTools));
  }

  /** The filter read off the cascade: an allowlisted tool is callable exactly when the cascade
      would reach its catch-all, or would stop at the mutation check for a trusted tool. The
      catch-all is thus only ever printed for code_execution. */
  lemma CascadeMirrorsFilter(settings: Settings, allTools: ToolMap, name: string)
    requires Keyed(allTools) && settings.Allowlists(name)
    ensures var reason := Diagnose(settings, allTools, name);
      name in CallableNames(settings, allTools)
      <==> name != "code_execution"
           && (reason == NotCallable
               || (reason == MutatingBlocked && TrustedReadOnlyCustom(settings, allTools[name])))
  {
    hide ConfiguredCallers, NormalizePtc;
  }

  lemma CatchAllIsCodeExecution(settings: Settings, allTools: ToolMap, name: string)
    requires Keyed(allTools) && settings.Allowlists(name) && name !in CallableNames(settings, allTools)
    ensures Diagnose(settings, allTools, name) == NotCallable ==> name == "code_execution"
  {
    CascadeMirrorsFilter(settings, allTools, name);
  }

  /** A tool that says its policy is read-only and its readOnly flag false: once trusted it is
      callable with mutations disabled, although the cascade alone would call it mutating. */
  lemma CascadeAloneWouldMisreport()
    ensures var ptc := PtcOptions(Some(true), None, Some(false), Some(ReadOnly), None, None, None);
      var tool := CustomTool(Definition("notes", "", "", 0, Some(ptc), None));
      var settings := Settings(false, true, Some(["notes"]), {}, {"notes"});
      && Callable(settings, tool)
      && Diagnose(settings, map["notes" := tool], "notes") == MutatingBlocked
  {
  }

  function Rank(reason: Reason): nat {
    match reason
    case Blocked => 0
    case NotPresent => 1
    case BashDisabled => 2
    case MissingCallable => 3
    case CallersExclude => 4
    case MutatingBlocked => 5
    case NeedsTrust => 6
    case NotCallable => 7
  }

  /** What the settings can do about a cause. */
  function Remedy(settings: Settings, reason: Reason, name: string): Settings {
    match reason
    case Blocked => settings.(blockedTools := settings.blockedTools - {name})
    case BashDisabled => settings.(allowBash := true)
    case MutatingBlocked => settings.(allowMutations := true)
    case NeedsTrust => settings.(trustedReadOnlyTools := settings.trustedReadOnlyTools + {name})
    case _ => settings
  }

  /** The reported cause is a real one: changing the setting it names moves the diagnosis on,
      and for the last two causes lets the tool run, unless, for the second, its metadata does
      not say read-only. */
  lemma ReasonIsTheCause(settings: Settings, allTools: ToolMap, name: string)
    requires Keyed(allTools) && settings.Allowlists(name) && name !in CallableNames(settings, allTools)
    ensures var reason := Diagnose(settings, allTools, name);
      var remedied := Remedy(settings, reason, name);
      && (reason in {Blocked, BashDisabled, MutatingBlocked} ==> Rank(Diagnose(remedied, allTools, name)) > Rank(reason))
      && (reason == MutatingBlocked && name != "code_execution" ==> name in CallableNames(remedied, allTools))
      && (reason == NeedsTrust && name != "code_execution" ==>
            (name in CallableNames(remedied, allTools) <==> NormalizePtc(allTools[name].ptc).value.isReadOnly))
  {
    var reason := Diagnose(settings, allTools, name);
    CascadeMirrorsFilter(Remedy(settings, reason, name), allTools, name);
    hide ConfiguredCallers, NormalizePtc;
  }

  /** What each reason says about the tool is so. */
  lemma ReasonsAreTrue(settings: Settings, allTools: ToolMap, name: string)
    requires Keyed(allTools)
    ensures var reason := Diagnose(settings, allTools, name);
      && (reason == Blocked <==> name in settings.blockedTools)
      && (reason == NotPresent ==> name !in allTools)
      && (reason == BashDisabled ==> name == "bash" && !settings.allowBash)
      && (reason !in {Blocked, NotPresent, BashDisabled} ==> name in allTools)
      && (reason !in {Blocked, NotPresent, BashDisabled} ==>
            (reason == MissingCallable <==> !allTools[name].IsBuiltin() && !DeclaredCallable(allTools[name])))
      && (reason == CallersExclude ==> CodeExecution !in ConfiguredCallers(allTools[name]))
      && (reason == MutatingBlocked ==> !settings.allowMutations && !allTools[name].isReadOnly)
      && (reason == NeedsTrust ==>
            !settings.allowMutations && allTools[name].isReadOnly && !allTools[name].IsBuiltin()
            && !TrustedReadOnlyCustom(settings, allTools[name]))
  {
    hide ConfiguredCallers, NormalizePtc;
  }

  /** And the two reasons that settings cannot help are cured by the metadata they name. */
  lemma MetadataIsTheCause(settings: Settings, allTools: ToolMap, name: string, ptc: PtcOptions)
    requires Keyed(allTools) && name in allTools && ptc.callable == Some(true)
    ensures var reason, told := Diagnose(settings, allTools, name), allTools[name := allTools[name].(ptc := Some(ptc))];
      && (reason == MissingCallable ==> Rank(Diagnose(settings, told, name)) > Rank(reason))
      && (reason == CallersExclude && ptc.callers.Some? && CodeExecution in ptc.callers.value ==>
            Rank(Diagnose(settings, told, name)) > Rank(reason))
  {
  }

  /** Loosening any setting keeps every callable tool callable, as long as the allowlist stays a list. */
  lemma LooserKeepsCallable(tight: Settings, loose: Settings, tool: ToolInfo)
    requires tight.allowMutations ==> loose.allowMutations
    requires tight.allowBash ==> loose.allowBash
    requires loose.blockedTools <= tight.blockedTools && tight.trustedReadOnlyTools <= loose.trustedReadOnlyTools
    requires tight.callableTools.Some? == loose.callableTools.Some?
    requires forall name :: tight.Allowlists(name) ==> loose.Allowlists(name)
    ensures Callable(tight, tool) ==> Callable(loose, tool)
  {
    hide ConfiguredCallers, NormalizePtc;
  }

  /** Dropping the allowlist is not a loosening: it loses exactly the opt-in tools. */
  lemma DroppingTheAllowlist(settings: Settings, tool: ToolInfo)
    requires Callable(settings, tool)
    ensures Callable(settings.(callableTools := None), tool) <==> !(OptInTool(tool) && settings.callableTools.Some?)
  {
    hide ConfiguredCallers, NormalizePtc;
  }

  // --- read-only mode ---

  /** The flag on a tool says what its name and metadata say. */
  predicate Classified(tool: ToolInfo) {
    tool.isReadOnly == IsReadOnlyTool(tool.name, tool.ptc) && NormalizeStoredPtc(tool.ptc) == tool.ptc
  }

  predicate AllClassified(m: ToolMap) {
    forall name <- m :: Classified(m[name])
  }

  /** classifyTool on a definition's own metadata gives a classified tool. */
  lemma ClassifyStable(name: string, ptc: Option<PtcOptions>)
    ensures IsReadOnlyTool(name, NormalizeStoredPtc(ptc)) == IsReadOnlyTool(name, ptc)
    ensures NormalizeStoredPtc(NormalizeStoredPtc(ptc)) == NormalizeStoredPtc(ptc)
  {
    StoredPtcStable(ptc);
  }

  lemma {:induction false} IngestClassified(executors: ToolMap, emission: seq<Emitted>)
    requires AllClassified(executors)
    ensures AllClassified(IngestAll(executors, emission))
    decreases |emission|
  {
    if emission != [] {
      var e := emission[0];
      ClassifyStable(e.name.GetOr(""), e.ptc);
      hide IsReadOnlyTool, NormalizeStoredPtc;
      IngestClassified(if e.name.Some? && e.execute.Some? then executors[e.name.value := BridgeTool(e)] else executors, emission[1..]);
    }
  }

  lemma {:induction false} HistoryClassified(events: seq<Event>)
    ensures AllClassified(Run(EMPTY, events).customTools) && AllClassified(Run(EMPTY, events).executors)
  {
    if events != [] {
      HistoryClassified(events[..|events| - 1]);
      var last := events[|events| - 1];
      match last
      case Upsert(d) => ClassifyStable(d.name, d.ptc);
      case Remove(_) =>
      case Ingest(emission) => IngestClassified(Run(EMPTY, events[..|events| - 1]).executors, emission);
    }
  }

  /** After any history and under any Pi list, the flag of every tool in the map agrees with the
      metadata stored beside it. */
  lemma ResolvedClassified(events: seq<Event>, builtins: ToolMap, pi: seq<PiTool>, active: set<string>, name: string)
    requires Keyed(builtins) && AllClassified(builtins) && forall n <- builtins :: builtins[n].ptc == None
    requires DistinctNames(pi)
    ensures var r := Resolve(Run(EMPTY, events), builtins, pi, active, name); r.Some? ==> Classified(r.value)
  {
    var s := Run(EMPTY, events);
    RunValid(events);
    HistoryClassified(events);
    FindPiAbsent(pi, name);
    var own := OwnTool(s, builtins, name);
    assert own.Some? ==> Classified(own.value);
    var p := FindPi(pi, name);
    if p.Some? {
      ClassifyStable(name, p.value.ptc);
      ClassifyStable(name, NormalizeStoredPtc(p.value.ptc));
      if own.Some? { ClassifyStable(name, own.value.ptc); }
      hide IsReadOnlyTool, NormalizeStoredPtc;
    }
  }

  /** With mutations disabled, whatever was registered, bridged or overridden before, a callable
      tool either counts as a builtin and is read-only by its metadata or, lacking any, by its
      name, or it is an extension whose policy says read-only and that the user trusts. */
  lemma ReadOnlyMode(settings: Settings, events: seq<Event>, builtins: ToolMap, pi: seq<PiTool>, active: set<string>, name: string)
    requires !settings.allowMutations
    requires Keyed(builtins) && AllClassified(builtins) && forall n <- builtins :: builtins[n].ptc == None
    requires DistinctNames(pi)
    ensures var r := Resolve(Run(EMPTY, events), builtins, pi, active, name);
      r.Some? && Callable(settings, r.value) ==>
        var t := r.value;
        if t.IsBuiltin() then (if t.ptc.Some? then t.ptc.value.readOnly == Some(true) else t.name in READ_ONLY_BUILTINS)
        else t.name in settings.trustedReadOnlyTools && t.ptc.Some? && t.ptc.value.policy == Some(ReadOnly)
  {
    ResolvedClassified(events, builtins, pi, active, name);
    hide ConfiguredCallers;
  }
}
