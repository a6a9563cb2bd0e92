/** The tool registry: custom tools with tombstones, executors from the bridge, and the overlay
    of builtins, bridge, custom tools and Pi's own list into one tool map. */
module ToolRegistry {
  import opened Wrappers

  // --- ptc metadata ---

  datatype Caller = Direct | CodeExecution
  datatype ExecutionPolicy = ReadOnly | Mutating
  datatype Exposure = SafeByDefault | OptIn | NotSafeByDefault

  datatype PtcOptions = PtcOptions(
    enabled: Option<bool>, callable: Option<bool>, readOnly: Option<bool>, policy: Option<ExecutionPolicy>,
    pythonName: Option<string>, defaultExposure: Option<Exposure>, callers: Option<seq<Caller>>)

  datatype NormalizedPtc = NormalizedPtc(
    callable: bool, executionPolicy: ExecutionPolicy, isReadOnly: bool,
    pythonName: Option<string>, defaultExposure: Option<Exposure>)

  function NormalizePtc(ptc: Option<PtcOptions>): Option<NormalizedPtc> {
    match ptc
    case None => None
    case Some(p) =>
      var policy := p.policy.GetOr(if p.readOnly == Some(true) then ReadOnly else Mutating);
      Some(NormalizedPtc(p.callable.GetOr(p.enabled.GetOr(false)), policy, policy.ReadOnly?, p.pythonName, p.defaultExposure))
  }

  function NormalizeStoredPtc(ptc: Option<PtcOptions>): Option<PtcOptions> {
    match NormalizePtc(ptc)
    case None => ptc
    case Some(n) =>
      var p := ptc.value;
      Some(p.(enabled := Some(p.enabled.GetOr(n.callable)), callable := Some(n.callable),
              readOnly := Some(p.readOnly.GetOr(n.isReadOnly)), policy := Some(n.executionPolicy),
              pythonName := n.pythonName))
  }

  /** The defaults: a tool is callable if it says so, and if it says nothing when it is enabled;
      it is mutating unless its policy says read-only, or, without a policy, its readOnly flag. */
  lemma PtcDefaults(p: PtcOptions)
    ensures var n := NormalizePtc(Some(p));
      && n.Some? && NormalizePtc(None).None?
      && (n.value.callable <==> p.callable == Some(true) || (p.callable.None? && p.enabled == Some(true)))
      && (n.value.isReadOnly <==> p.policy == Some(ReadOnly) || (p.policy.None? && p.readOnly == Some(true)))
      && (n.value.executionPolicy == ReadOnly <==> n.value.isReadOnly)
      && n.value.pythonName == p.pythonName && n.value.defaultExposure == p.defaultExposure
  {
  }

  /** Storing fills in what was left out and keeps what was said. */
  lemma StoredKeeps(p: PtcOptions)
    ensures var s := NormalizeStoredPtc(Some(p));
      && s.Some?
      && (p.enabled.Some? ==> s.value.enabled == p.enabled) && (p.readOnly.Some? ==> s.value.readOnly == p.readOnly)
      && (p.enabled.None? ==> s.value.enabled == s.value.callable) && s.value.callable.Some?
      && (p.readOnly.None? ==> (s.value.readOnly == Some(true) <==> s.value.policy == Some(ReadOnly)))
      && s.value.pythonName == p.pythonName && s.value.defaultExposure == p.defaultExposure && s.value.callers == p.callers
    ensures NormalizeStoredPtc(None).None?
  {
  }

  /** Storing normalised metadata keeps what it means, and storing it again changes nothing:
      the overlay normalises some tools twice. */
  lemma StoredPtcStable(ptc: Option<PtcOptions>)
    ensures NormalizePtc(NormalizeStoredPtc(ptc)) == NormalizePtc(ptc)
    ensures NormalizeStoredPtc(NormalizeStoredPtc(ptc)) == NormalizeStoredPtc(ptc)
  {
  }

  const READ_ONLY_BUILTINS := {"read", "sg", "find", "glob", "grep", "ls"}

  function IsReadOnlyTool(name: string, ptc: Option<PtcOptions>): bool {
    if ptc.Some? then NormalizeStoredPtc(ptc).value.readOnly == Some(true) else name in READ_ONLY_BUILTINS
  }

  // --- tools ---

  datatype Source = Builtin | Alias | Extension

  /** What runs when the tool is called: an executor, known by a number, or a stub that fails. */
  datatype Execute = Executor(id: nat) | Unavailable(name: string)

  datatype ToolInfo = ToolInfo(
    name: string, description: string, parameters: string, execute: Execute, ptc: Option<PtcOptions>,
    source: Source, isReadOnly: bool, sourceInfo: Option<string>)
  {
    predicate IsBuiltin() {
      source != Extension
    }
  }

  /** A tool definition handed to upsertTool. */
  datatype Definition = Definition(name: string, description: string, parameters: string, execute: nat,
                                   ptc: Option<PtcOptions>, sourceInfo: Option<string>)

  /** An entry of a bridge emission; entries without a name or an executor are skipped. */
  datatype Emitted = Emitted(name: Option<string>, execute: Option<nat>, ptc: Option<PtcOptions>, parameters: Option<string>)

  /** A tool in Pi's own list. */
  datatype PiTool = PiTool(name: string, description: string, parameters: string, execute: Option<nat>,
                           ptc: Option<PtcOptions>, sourceInfo: Option<string>)

  type ToolMap = map<string, ToolInfo>

  predicate Keyed(m: ToolMap) {
    forall name <- m :: m[name].name == name
  }

  function Lookup(m: ToolMap, name: string): Option<ToolInfo> {
    if name in m then Some(m[name]) else None
  }

  function CustomTool(d: Definition): ToolInfo {
    ToolInfo(d.name, d.description, d.parameters, Executor(d.execute), NormalizeStoredPtc(d.ptc), Extension,
             IsReadOnlyTool(d.name, d.ptc), d.sourceInfo)
  }

  const NO_PARAMETERS := "{ type: object, properties: {} }"

  function BridgeTool(e: Emitted): ToolInfo
    requires e.name.Some? && e.execute.Some?
  {
    ToolInfo(e.name.value, "", e.parameters.GetOr(NO_PARAMETERS), Executor(e.execute.value), NormalizeStoredPtc(e.ptc),
             Extension, IsReadOnlyTool(e.name.value, e.ptc), None)
  }

  // --- the registry's state and its history ---

  datatype State = State(customTools: ToolMap, owned: set<string>, executors: ToolMap) {
    /** A removed custom tool, which Pi's list must not bring back. */
    predicate Removed(name: string) {
      name in owned && name !in customTools
    }

    predicate Valid() {
      Keyed(customTools) && Keyed(executors) && customTools.Keys <= owned
    }
  }

  const EMPTY := State(map[], {}, map[])

  datatype Event = Upsert(definition: Definition) | Remove(name: string) | Ingest(emission: seq<Emitted>)

  function IngestAll(executors: ToolMap, emission: seq<Emitted>): ToolMap
    decreases |emission|
  {
    if emission == [] then executors
    else
      var e := emission[0];
      IngestAll(if e.name.Some? && e.execute.Some? then executors[e.name.value := BridgeTool(e)] else executors, emission[1..])
  }

  function Step(s: State, e: Event): State {
    match e
    case Upsert(d) => s.(customTools := s.customTools[d.name := CustomTool(d)], owned := s.owned + {d.name})
    case Remove(name) => s.(customTools := s.customTools - {name}, owned := s.owned + {name})
    case Ingest(emission) => s.(executors := IngestAll(s.executors, emission))
  }

  function Run(s: State, events: seq<Event>): State {
    if events == [] then s else Step(Run(s, events[..|events| - 1]), events[|events| - 1])
  }

  lemma {:induction false} IngestKeyed(executors: ToolMap, emission: seq<Emitted>)
    requires Keyed(executors)
    ensures Keyed(IngestAll(executors, emission))
    decreases |emission|
  {
    if emission != [] {
      var e := emission[0];
      IngestKeyed(if e.name.Some? && e.execute.Some? then executors[e.name.value := BridgeTool(e)] else executors, emission[1..]);
    }
  }

  lemma {:induction false} RunValid(events: seq<Event>)
    ensures Run(EMPTY, events).Valid()
  {
    if events != [] {
      var before := Run(EMPTY, events[..|events| - 1]);
      RunValid(events[..|events| - 1]);
      var last := events[|events| - 1];
      if last.Ingest? { IngestKeyed(before.executors, last.emission); }
    }
  }

  predicate Mentions(e: Event, name: string) {
    (e.Upsert? && e.definition.name == name) || (e.Remove? && e.name == name)
  }

  /** The last upsert or removal of the name in a history is a removal. */
  predicate LastIsRemoval(events: seq<Event>, name: string) {
    events != []
    && var last := events[|events| - 1];
       if Mentions(last, name) then last.Remove? else LastIsRemoval(events[..|events| - 1], name)
  }

  /** The tombstones are exactly the names whose last upsert or removal was a removal. */
  lemma {:induction false} RemovedByHistory(events: seq<Event>, name: string)
    ensures Run(EMPTY, events).Removed(name) <==> LastIsRemoval(events, name)
  {
    if events != [] { RemovedByHistory(events[..|events| - 1], name); }
  }

  // --- the overlay, one name at a time ---

  function FindPi(pi: seq<PiTool>, name: string): Option<PiTool> {
    if pi == [] then None else if pi[0].name == name then Some(pi[0]) else FindPi(pi[1..], name)
  }

  predicate DistinctNames(pi: seq<PiTool>) {
    forall i, j :: 0 <= i < j < |pi| ==> pi[i].name != pi[j].name
  }

  function BridgeOver(builtin: Option<ToolInfo>, bridge: Option<ToolInfo>): Option<ToolInfo> {
    match bridge
    case None => builtin
    case Some(t) =>
      match builtin
      case None => bridge
      case Some(b) => Some(b.(execute := t.execute, ptc := if t.ptc.Some? then t.ptc else b.ptc, isReadOnly := t.isReadOnly))
  }

  function PiExecute(p: PiTool, active: set<string>): Option<Execute> {
    if p.name in active && p.execute.Some? then Some(Executor(p.execute.value)) else None
  }

  /** What Pi's entry makes of the tool found so far under its name. */
  function PiOver(existing: Option<ToolInfo>, p: PiTool, removed: bool, active: set<string>): Option<ToolInfo> {
    if removed then existing
    else
      match existing
      case Some(t) =>
        if t.IsBuiltin() && p.name !in active then existing
        else
          var merged := NormalizeStoredPtc(if p.ptc.Some? then p.ptc else t.ptc);
          Some(t.(description := p.description, parameters := p.parameters, ptc := NormalizeStoredPtc(merged),
                  isReadOnly := IsReadOnlyTool(p.name, merged),
                  sourceInfo := if p.sourceInfo.Some? then p.sourceInfo else t.sourceInfo,
                  execute := PiExecute(p, active).GetOr(t.execute)))
      case None =>
        Some(ToolInfo(p.name, p.description, p.parameters, PiExecute(p, active).GetOr(Unavailable(p.name)),
                      NormalizeStoredPtc(p.ptc), Extension, IsReadOnlyTool(p.name, p.ptc), p.sourceInfo))
  }

  /** The tool under a name before Pi's list is looked at. */
  function OwnTool(s: State, builtins: ToolMap, name: string): Option<ToolInfo> {
    if name in s.customTools then Some(s.customTools[name])
    else BridgeOver(Lookup(builtins, name), Lookup(s.executors, name))
  }

  function Resolve(s: State, builtins: ToolMap, pi: seq<PiTool>, active: set<string>, name: string): Option<ToolInfo> {
    match FindPi(pi, name)
    case None => OwnTool(s, builtins, name)
    case Some(p) => PiOver(OwnTool(s, builtins, name), p, s.Removed(name), active)
  }

  // --- the class ---

  class Registry {
    var customTools: ToolMap
    var extensionOwnedToolNames: set<string>
    var extensionExecutors: ToolMap

    ghost function Abstract(): State
      reads this
    {
      State(customTools, extensionOwnedToolNames, extensionExecutors)
    }

    constructor ()
      ensures Abstract() == EMPTY && Abstract().Valid()
    {
      customTools, extensionOwnedToolNames, extensionExecutors := map[], {}, map[];
    }

    method UpsertTool(d: Definition)
      requires Abstract().Valid()
      modifies this
      ensures Abstract() == Step(old(Abstract()), Upsert(d)) && Abstract().Valid()
    {
      extensionOwnedToolNames := extensionOwnedToolNames + {d.name};
      customTools := customTools[d.name := CustomTool(d)];
    }

    method RemoveTool(name: string) returns (existed: bool)
      requires Abstract().Valid()
      modifies this
      ensures Abstract() == Step(old(Abstract()), Remove(name)) && Abstract().Valid()
      ensures existed <==> name in old(customTools)
    {
      extensionOwnedToolNames := extensionOwnedToolNames + {name};
      existed := name in customTools;
      customTools := customTools - {name};
    }

    method IngestExtensionExecutors(emission: seq<Emitted>)
      requires Abstract().Valid()
      modifies this`extensionExecutors
      ensures Abstract() == Step(old(Abstract()), Ingest(emission)) && Abstract().Valid()
    {
      for i := 0 to |emission|
        invariant Keyed(extensionExecutors)
        invariant IngestAll(extensionExecutors, emission[i..]) == IngestAll(old(extensionExecutors), emission)
      {
        assert emission[i..][1..] == emission[i + 1..];
        var e := emission[i];
        if e.name.Some? && e.execute.Some? {
          extensionExecutors := extensionExecutors[e.name.value := BridgeTool(e)];
        }
      }
    }

    /** The four overlay loops, over maps in any order and over Pi's list. */
    method BuildToolMap(builtins: ToolMap, pi: seq<PiTool>, active: set<string>) returns (allTools: ToolMap)
      requires Abstract().Valid() && Keyed(builtins) && DistinctNames(pi)
      ensures Keyed(allTools)
      ensures forall name :: Lookup(allTools, name) == Resolve(Abstract(), builtins, pi, active, name)
    {
      allTools := OverlayBridge(builtins);
      allTools := OverlayCustom(allTools);
      allTools := OverlayPi(allTools, pi, active);
    }

    method OverlayBridge(builtins: ToolMap) returns (allTools: ToolMap)
      requires Abstract().Valid() && Keyed(builtins)
      ensures Keyed(allTools)
      ensures forall name :: Lookup(allTools, name) == BridgeOver(Lookup(builtins, name), Lookup(extensionExecutors, name))
    {
      allTools := builtins;
      var left := extensionExecutors.Keys;
      while left != {}
        invariant left <= extensionExecutors.Keys && Keyed(allTools)
        invariant forall name :: (
          Lookup(allTools, name)
          == if name in extensionExecutors && name !in left then BridgeOver(Lookup(builtins, name), Lookup(extensionExecutors, name))
             else Lookup(builtins, name))
      {
        var name :| name in left;
        var tool := extensionExecutors[name];
        if name in allTools {
          var existing := allTools[name];
          allTools := allTools[name := existing.(execute := tool.execute, isReadOnly := tool.isReadOnly,
                                                 ptc := if tool.ptc.Some? then tool.ptc else existing.ptc)];
        } else {
          allTools := allTools[name := tool];
        }
        left := left - {name};
      }
    }

    method OverlayCustom(bridged: ToolMap) returns (allTools: ToolMap)
      requires Abstract().Valid() && Keyed(bridged)
      ensures Keyed(allTools)
      ensures forall name :: (
        Lookup(allTools, name) == if name in customTools then Some(customTools[name]) else Lookup(bridged, name))
    {
      allTools := bridged;
      var left := customTools.Keys;
      while left != {}
        invariant left <= customTools.Keys && Keyed(allTools)
        invariant forall name :: (
          Lookup(allTools, name)
          == if name in customTools && name !in left then Some(customTools[name]) else Lookup(bridged, name))
      {
        var name :| name in left;
        allTools := allTools[customTools[name].name := customTools[name]];
        left := left - {name};
      }
    }

    method OverlayPi(own: ToolMap, pi: seq<PiTool>, active: set<string>) returns (allTools: ToolMap)
      requires Keyed(own) && DistinctNames(pi)
      ensures Keyed(allTools)
      ensures forall name :: (
        Lookup(allTools, name)
        == if FindPi(pi, name).Some? then PiOver(Lookup(own, name), FindPi(pi, name).value, Abstract().Removed(name), active)
           else Lookup(own, name))
    {
      hide NormalizeStoredPtc, IsReadOnlyTool;
      allTools := own;
      for i := 0 to |pi|
        invariant Keyed(allTools)
        invariant forall name :: (
          Lookup(allTools, name)
          == if FindPi(pi[..i], name).Some? then PiOver(Lookup(own, name), FindPi(pi[..i], name).value, Abstract().Removed(name), active)
             else Lookup(own, name))
      {
        var piTool := pi[i];
        forall name ensures FindPi(pi[..i + 1], name)
          == if FindPi(pi[..i], name).Some? then FindPi(pi[..i], name) else if piTool.name == name then Some(piTool) else None
        {
          assert pi[..i + 1] == pi[..i] + [piTool];
          FindPiAppend(pi[..i], piTool, name);
        }
        FindPiAbsent(pi[..i], piTool.name);
        allTools := OverlayPiTool(allTools, piTool, active);
      }
      assert pi[..|pi|] == pi;
    }

    /** The body of the loop over Pi's list. */
    method OverlayPiTool(before: ToolMap, piTool: PiTool, active: set<string>) returns (allTools: ToolMap)
      requires Keyed(before)
      ensures Keyed(allTools)
      ensures forall name :: (
        Lookup(allTools, name)
        == if name == piTool.name then PiOver(Lookup(before, name), piTool, Abstract().Removed(name), active) else Lookup(before, name))
    {
      allTools := before;
      if piTool.name in extensionOwnedToolNames && piTool.name !in customTools {
        return;
      }
      var shouldUsePiOverride := piTool.name in active;
      var override := if shouldUsePiOverride && piTool.execute.Some? then Some(Executor(piTool.execute.value)) else None;
      if piTool.name in before {
        var existing := before[piTool.name];
        if existing.IsBuiltin() && !shouldUsePiOverride {
          return;
        }
        var mergedPtc := NormalizeStoredPtc(if piTool.ptc.Some? then piTool.ptc else existing.ptc);
        allTools := before[piTool.name := existing.(
          description := piTool.description, parameters := piTool.parameters, ptc := NormalizeStoredPtc(mergedPtc),
          isReadOnly := IsReadOnlyTool(piTool.name, mergedPtc),
          sourceInfo := if piTool.sourceInfo.Some? then piTool.sourceInfo else existing.sourceInfo,
          execute := override.GetOr(existing.execute))];
      } else {
        allTools := before[piTool.name := ToolInfo(
          piTool.name, piTool.description, piTool.parameters, override.GetOr(Unavailable(piTool.name)),
          NormalizeStoredPtc(piTool.ptc), Extension, IsReadOnlyTool(piTool.name, piTool.ptc), piTool.sourceInfo)];
      }
    }
  }

  lemma {:induction false} FindPiAppend(pi: seq<PiTool>, p: PiTool, name: string)
    ensures FindPi(pi + [p], name) == if FindPi(pi, name).Some? then FindPi(pi, name) else if p.name == name then Some(p) else None
  {
    if pi == [] {
      assert [p][1..] == [];
    } else {
      assert (pi + [p])[1..] == pi[1..] + [p];
      FindPiAppend(pi[1..], p, name);
    }
  }

  lemma {:induction false} FindPiAbsent(pi: seq<PiTool>, name: string)
    ensures FindPi(pi, name).Some? <==> exists i :: 0 <= i < |pi| && pi[i].name == name
    ensures FindPi(pi, name).Some? ==> FindPi(pi, name).value.name == name
  {
    if pi != [] {
      FindPiAbsent(pi[1..], name);
      assert forall i :: 0 <= i < |pi| - 1 ==> pi[1..][i] == pi[i + 1];
      assert forall i :: 0 < i < |pi| ==> pi[i] == pi[1..][i - 1];
    }
  }

  // --- main results ---

  /** Who runs a tool: Pi's executor if Pi has the tool active with one and it was not removed;
      else the custom tool, else the bridge, else the builtin; else the stub that fails, if Pi
      lists the tool and it was not removed; else nobody. */
  function WhoRuns(s: State, builtins: ToolMap, pi: seq<PiTool>, active: set<string>, name: string): Option<Execute> {
    var p := FindPi(pi, name);
    if p.Some? && !s.Removed(name) && name in active && p.value.execute.Some? then Some(Executor(p.value.execute.value))
    else if name in s.customTools then Some(s.customTools[name].execute)
    else if name in s.executors then Some(s.executors[name].execute)
    else if name in builtins then Some(builtins[name].execute)
    else if p.Some? && !s.Removed(name) then Some(Unavailable(name))
    else None
  }

  /** After any history, the map built by the overlay loops follows that order of precedence,
      for the executor and for the tool's very presence. */
  lemma PrecedenceRule(events: seq<Event>, builtins: ToolMap, pi: seq<PiTool>, active: set<string>, name: string)
    requires Keyed(builtins) && DistinctNames(pi)
    requires forall n <- builtins :: builtins[n].IsBuiltin()
    ensures var s := Run(EMPTY, events); var r := Resolve(s, builtins, pi, active, name);
      && (r.Some? <==> WhoRuns(s, builtins, pi, active, name).Some?)
      && (r.Some? ==> Some(r.value.execute) == WhoRuns(s, builtins, pi, active, name) && r.value.name == name)
  {
    hide NormalizeStoredPtc, IsReadOnlyTool;
    RunValid(events);
    FindPiAbsent(pi, name);
  }

  /** A custom tool whose last upsert or removal was a removal is gone, whatever Pi lists as
      active, unless a builtin or the bridge provides the name. */
  lemma RemovedNeverReappears(events: seq<Event>, builtins: ToolMap, pi: seq<PiTool>, active: set<string>, name: string)
    requires LastIsRemoval(events, name) && name !in builtins && name !in Run(EMPTY, events).executors
    ensures Resolve(Run(EMPTY, events), builtins, pi, active, name) == None
  {
    RemovedByHistory(events, name);
  }

  /** Where a builtin provides the name, the tool keeps counting as a builtin under every
      bridge emission and Pi override, until a custom tool takes the name over. */
  lemma {:induction false} BuiltinSourceKept(events: seq<Event>, builtins: ToolMap, pi: seq<PiTool>, active: set<string>, name: string)
    requires name in builtins && builtins[name].IsBuiltin() && DistinctNames(pi)
    ensures var s := Run(EMPTY, events); var r := Resolve(s, builtins, pi, active, name);
      r.Some? && (r.value.IsBuiltin() <==> name !in s.customTools)
  {
    hide NormalizeStoredPtc, IsReadOnlyTool;
    CustomAreExtensions(events);
  }

  lemma {:induction false} CustomAreExtensions(events: seq<Event>)
    ensures forall n <- Run(EMPTY, events).customTools :: Run(EMPTY, events).customTools[n].source == Extension
  {
    if events != [] { CustomAreExtensions(events[..|events| - 1]); }
  }

  // --- where the rest of a tool comes from ---

  /** A custom tool is what its last upsert said, after any history. */
  lemma {:induction false} CustomIsLastUpsert(events: seq<Event>, name: string)
    ensures name in Run(EMPTY, events).customTools
      <==> exists k :: LastUpsert(events, name, k)
    ensures forall k :: LastUpsert(events, name, k) && name in Run(EMPTY, events).customTools ==>
      var t, d := Run(EMPTY, events).customTools[name], events[k].definition;
      && t.name == d.name == name && t.description == d.description && t.parameters == d.parameters
      && t.execute == Executor(d.execute) && t.sourceInfo == d.sourceInfo && t.ptc == NormalizeStoredPtc(d.ptc)
      && t.isReadOnly == IsReadOnlyTool(name, d.ptc) && t.source == Extension
  {
    hide NormalizeStoredPtc, IsReadOnlyTool;
    if events != [] {
      var n, before := |events| - 1, events[..|events| - 1];
      CustomIsLastUpsert(before, name);
      assert forall k :: 0 <= k < n ==> before[k] == events[k];
      if Mentions(events[n], name) {
        assert forall k :: LastUpsert(events, name, k) ==> k == n;
        assert events[n].Upsert? ==> LastUpsert(events, name, n);
      } else {
        assert forall k :: LastUpsert(events, name, k) <==> LastUpsert(before, name, k);
      }
    }
  }

  /** The k-th event registers the name, and no later one mentions it. */
  predicate LastUpsert(events: seq<Event>, name: string, k: int) {
    && 0 <= k < |events| && events[k].Upsert? && events[k].definition.name == name
    && forall j :: k < j < |events| ==> !Mentions(events[j], name)
  }

  /** Whether Pi's entry changes the tool that is already there under its name. */
  predicate PiApplies(own: Option<ToolInfo>, p: PiTool, removed: bool, active: set<string>) {
    !removed && (own.None? || !own.value.IsBuiltin() || p.name in active)
  }

  /** Where Pi's entry applies it describes the tool and gives its parameters, and its metadata
      and source count before the tool's own; elsewhere the tool is as it was: the custom tool, or
      the builtin with the bridge's executor and, if there is any, its metadata. */
  lemma DescriptionRule(s: State, builtins: ToolMap, pi: seq<PiTool>, active: set<string>, name: string)
    requires s.Valid() && Keyed(builtins) && DistinctNames(pi)
    ensures var r, own, p := Resolve(s, builtins, pi, active, name), OwnTool(s, builtins, name), FindPi(pi, name);
      if p.Some? && PiApplies(own, p.value, s.Removed(name), active) then
        && r.Some? && r.value.description == p.value.description && r.value.parameters == p.value.parameters
        && (p.value.sourceInfo.Some? ==> r.value.sourceInfo == p.value.sourceInfo)
        && (p.value.sourceInfo.None? && own.Some? ==> r.value.sourceInfo == own.value.sourceInfo)
        && (p.value.ptc.Some? ==> NormalizePtc(r.value.ptc) == NormalizePtc(p.value.ptc))
        && (p.value.ptc.None? && own.Some? ==> NormalizePtc(r.value.ptc) == NormalizePtc(own.value.ptc))
      else r == own
    ensures var own := OwnTool(s, builtins, name);
      if name in s.customTools then own == Some(s.customTools[name])
      else if name in s.executors && name in builtins then
        var b, e := builtins[name], s.executors[name];
        && own.Some? && own.value.execute == e.execute && own.value.isReadOnly == e.isReadOnly
        && own.value.ptc == (if e.ptc.Some? then e.ptc else b.ptc)
        && own.value.description == b.description && own.value.parameters == b.parameters
        && own.value.source == b.source && own.value.sourceInfo == b.sourceInfo
      else if name in s.executors then own == Some(s.executors[name])
      else if name in builtins then own == Some(builtins[name])
      else own == None
  {
    FindPiAbsent(pi, name);
    var own, p := OwnTool(s, builtins, name), FindPi(pi, name);
    if p.Some? {
      StoredPtcStable(p.value.ptc);
      StoredPtcStable(NormalizeStoredPtc(p.value.ptc));
      if own.Some? {
        StoredPtcStable(own.value.ptc);
        StoredPtcStable(NormalizeStoredPtc(own.value.ptc));
      }
    }
    hide NormalizeStoredPtc, NormalizePtc, IsReadOnlyTool;
  }

  /** The bridge's entry for a name is the last one emitted with a name and an executor. */
  lemma {:induction false} LastEmissionCounts(executors: ToolMap, emission: seq<Emitted>, e: Emitted)
    requires e.name.Some? && e.execute.Some?
    ensures var t := IngestAll(executors, emission + [e]);
      && e.name.value in t && t[e.name.value].execute == Executor(e.execute.value)
      && t[e.name.value].ptc == NormalizeStoredPtc(e.ptc) && t[e.name.value].name == e.name.value
      && (e.parameters.Some? ==> t[e.name.value].parameters == e.parameters.value)
    ensures forall name :: name != e.name.value ==>
      Lookup(IngestAll(executors, emission + [e]), name) == Lookup(IngestAll(executors, emission), name)
    decreases |emission|
  {
    hide NormalizeStoredPtc, IsReadOnlyTool;
    if emission == [] {
      assert emission + [e] == [e] && [e][1..] == [];
      assert IngestAll(executors, [e]) == executors[e.name.value := BridgeTool(e)];
    } else {
      var first := emission[0];
      assert (emission + [e])[1..] == emission[1..] + [e];
      LastEmissionCounts(if first.name.Some? && first.execute.Some? then executors[first.name.value := BridgeTool(first)] else executors,
                         emission[1..], e);
    }
  }
}
