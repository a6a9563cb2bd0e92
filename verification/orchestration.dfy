/** The helpers on top of gather_limit: batch_tool, reduce_tool and first_success. */
module Orchestration {
  import opened Wrappers
  import opened Gather
  import opened JsonText

  /** What one remote call or one normaliser comes to. */
  datatype CallOutcome = Value(v: Json) | CallError(summary: string)

  /** One record of a collect-mode envelope. */
  datatype Entry = Entry(index: nat, tool: string, ok: bool, value: Option<Json>, error: Option<string>)

  datatype Envelope = Envelope(results: seq<Entry>, total: nat, succeeded: nat, failed: nat)

  /** The normalisers of read and grep results, which may raise, and the recognition of
      tool-level errors in a value; all only look at their arguments. */
  datatype Policy = Policy(normalizeRead: Json -> CallOutcome, normalizeGrep: Json -> CallOutcome, toolError: Json -> Option<string>)

  function NormalizeBatchValue(p: Policy, tool: string, v: Json): CallOutcome {
    if tool == "read" then p.normalizeRead(v)
    else if tool == "grep" then p.normalizeGrep(v)
    else Value(v)
  }

  // --- batch_tool in collect mode ---

  /** _collect_call: every exception becomes a record, so this coroutine never raises. */
  function CollectCall(p: Policy, index: nat, tool: string, outcome: CallOutcome): (e: Entry)
    ensures e.index == index && e.tool == tool
    ensures e.ok <==> e.error.None?
  {
    match outcome
    case CallError(summary) => Entry(index, tool, false, None, Some(summary))
    case Value(v) =>
      match NormalizeBatchValue(p, tool, v)
      case CallError(summary) => Entry(index, tool, false, None, Some(summary))
      case Value(normalized) =>
        match p.toolError(normalized)
        case Some(error) => Entry(index, tool, false, Some(normalized), Some(error))
        case None => Entry(index, tool, true, Some(normalized), None)
  }

  /** What a record says. A call that raised leaves no value and its error; so does a read or a
      grep whose result does not normalise. Otherwise the record holds the result, normalised
      for those two tools and as it came for all others, with the error found in it, if any. */
  lemma RecordSays(p: Policy, index: nat, tool: string, outcome: CallOutcome)
    ensures var e := CollectCall(p, index, tool, outcome);
      && (outcome.CallError? ==> !e.ok && e.value == None && e.error == Some(outcome.summary))
      && (outcome.Value? && tool != "read" && tool != "grep" ==> e.value == Some(outcome.v) && e.error == p.toolError(outcome.v))
      && (outcome.Value? && tool == "read" ==> RecordOf(e, p, p.normalizeRead(outcome.v)))
      && (outcome.Value? && tool == "grep" ==> RecordOf(e, p, p.normalizeGrep(outcome.v)))
      && (e.ok <==> e.value.Some? && e.error.None?)
  {
    assert "read"[0] == 'r' && "grep"[0] == 'g';
  }

  predicate RecordOf(e: Entry, p: Policy, normalized: CallOutcome) {
    && (normalized.CallError? ==> e.value == None && e.error == Some(normalized.summary))
    && (normalized.Value? ==> e.value == Some(normalized.v) && e.error == p.toolError(normalized.v))
  }

  /** One record for each call, in the order of the calls. */
  function CollectAll(p: Policy, tools: seq<string>, outcomes: seq<CallOutcome>): (entries: seq<Entry>)
    requires |outcomes| == |tools|
    ensures |entries| == |tools|
  {
    seq(|tools|, i requires 0 <= i < |tools| => CollectCall(p, i, tools[i], outcomes[i]))
  }

  /** A call succeeds when it returns a value that normalises and is no error in disguise. */
  predicate Succeeds(p: Policy, tool: string, outcome: CallOutcome) {
    && outcome.Value?
    && NormalizeBatchValue(p, tool, outcome.v).Value?
    && p.toolError(NormalizeBatchValue(p, tool, outcome.v).v).None?
  }

  function CountOk(entries: seq<Entry>): (n: nat)
    ensures n <= |entries|
  {
    if entries == [] then 0 else CountOk(entries[..|entries| - 1]) + if entries[|entries| - 1].ok then 1 else 0
  }

  function EnvelopeOf(entries: seq<Entry>): Envelope {
    Envelope(entries, |entries|, CountOk(entries), |entries| - CountOk(entries))
  }

  /** The tail of collect mode: count the successes and build the envelope. */
  method BuildEnvelope(collected: seq<Entry>) returns (envelope: Envelope)
    ensures envelope == EnvelopeOf(collected)
    ensures envelope.succeeded + envelope.failed == envelope.total == |envelope.results|
  {
    var succeeded := 0;
    for i := 0 to |collected|
      invariant succeeded == CountOk(collected[..i])
    {
      assert collected[..i + 1][..i] == collected[..i];
      if collected[i].ok {
        succeeded := succeeded + 1;
      }
    }
    assert collected[..|collected|] == collected;
    envelope := Envelope(collected, |collected|, succeeded, |collected| - succeeded);
  }

  lemma OneMoreIn(s: set<int>, n: int)
    requires n !in s
    ensures |s + {n}| == |s| + 1
  {
  }

  lemma {:induction false} CountOkIsSet(entries: seq<Entry>)
    ensures CountOk(entries) == |set i | 0 <= i < |entries| && entries[i].ok|
  {
    if entries != [] {
      var n, before := |entries| - 1, entries[..|entries| - 1];
      CountOkIsSet(before);
      var smaller := set i | 0 <= i < n && before[i].ok;
      var larger := set i | 0 <= i < |entries| && entries[i].ok;
      assert larger == if entries[n].ok then smaller + {n} else smaller;
      OneMoreIn(smaller, n);
    }
  }

  /** Collect mode of batch_tool under every schedule and limit: the envelope holds, for each
      call in order, the record that call comes to by itself, and counts the calls that succeed. */
  lemma CollectModeInOrder(p: Policy, tools: seq<string>, outcomes: seq<CallOutcome>, limit: nat, events: seq<Event<Entry>>)
    requires |outcomes| == |tools|
    requires EnabledRun(Start<Entry>(|tools|, limit), events) && Complete(Run(Start<Entry>(|tools|, limit), events))
    requires FollowsOracle(events, seq(|tools|, i requires 0 <= i < |tools| => Returned(CollectAll(p, tools, outcomes)[i])))
    ensures var s := Run(Start<Entry>(|tools|, limit), events);
      && (s.firstError.None? ==> forall i :: 0 <= i < |s.status| ==> s.status[i].outcome.Returned?)
      && GatherOutcome(s).Returned?
      && var envelope := EnvelopeOf(GatherOutcome(s).r);
         && envelope.results == CollectAll(p, tools, outcomes) && envelope.total == |tools|
         && envelope.succeeded == |set i | 0 <= i < |tools| && Succeeds(p, tools[i], outcomes[i])|
         && envelope.succeeded + envelope.failed == envelope.total
  {
    var entries := CollectAll(p, tools, outcomes);
    ScheduleIndependent(entries, limit, events);
    CountOkIsSet(entries);
    assert (set i | 0 <= i < |entries| && entries[i].ok) == set i | 0 <= i < |tools| && Succeeds(p, tools[i], outcomes[i]);
  }

  // --- batch_tool in raise mode ---

  /** The list comprehension over the raw results: the first normaliser to raise ends it. */
  function NormalizeAll(p: Policy, tools: seq<string>, raw: seq<Json>): Outcome<seq<Json>>
    requires |raw| == |tools|
  {
    if tools == [] then Returned([])
    else
      var n := |tools| - 1;
      match NormalizeAll(p, tools[..n], raw[..n])
      case Raised(error) => Raised(error)
      case Returned(done) =>
        match NormalizeBatchValue(p, tools[n], raw[n])
        case Value(v) => Returned(done + [v])
        case CallError(summary) => Raised(summary)
  }

  method NormalizeBatch(p: Policy, tools: seq<string>, raw: seq<Json>) returns (r: Outcome<seq<Json>>)
    requires |raw| == |tools|
    ensures r == NormalizeAll(p, tools, raw)
  {
    var done: seq<Json> := [];
    for i := 0 to |tools|
      invariant NormalizeAll(p, tools[..i], raw[..i]) == Returned(done)
    {
      assert tools[..i + 1][..i] == tools[..i] && raw[..i + 1][..i] == raw[..i];
      match NormalizeBatchValue(p, tools[i], raw[i]) {
        case Value(v) =>
          done := done + [v];
        case CallError(summary) =>
          RaisesEarly(p, tools, raw, i + 1);
          return Raised(summary);
      }
    }
    assert tools[..|tools|] == tools && raw[..|raw|] == raw;
    r := Returned(done);
  }

  lemma {:induction false} RaisesEarly(p: Policy, tools: seq<string>, raw: seq<Json>, k: nat)
    requires k <= |tools| == |raw| && NormalizeAll(p, tools[..k], raw[..k]).Raised?
    ensures NormalizeAll(p, tools, raw) == NormalizeAll(p, tools[..k], raw[..k])
  {
    var n := |tools| - 1;
    if k <= n {
      assert tools[..n][..k] == tools[..k] && raw[..n][..k] == raw[..k];
      RaisesEarly(p, tools[..n], raw[..n], k);
    } else {
      assert tools[..k] == tools && raw[..k] == raw;
    }
  }

  /** Raise mode normalises every result in place, or raises the error of the first result that
      does not normalise. */
  lemma {:induction false} NormalizeAllInOrder(p: Policy, tools: seq<string>, raw: seq<Json>)
    requires |raw| == |tools|
    ensures NormalizeAll(p, tools, raw).Returned?
            <==> forall i :: 0 <= i < |tools| ==> NormalizeBatchValue(p, tools[i], raw[i]).Value?
    ensures NormalizeAll(p, tools, raw).Returned? ==>
      && |NormalizeAll(p, tools, raw).r| == |tools|
      && forall i :: 0 <= i < |tools| ==> Value(NormalizeAll(p, tools, raw).r[i]) == NormalizeBatchValue(p, tools[i], raw[i])
    ensures NormalizeAll(p, tools, raw).Raised? ==>
      exists k :: 0 <= k < |tools| && NormalizeBatchValue(p, tools[k], raw[k]) == CallError(NormalizeAll(p, tools, raw).error)
                  && forall i :: 0 <= i < k ==> NormalizeBatchValue(p, tools[i], raw[i]).Value?
  {
    if tools != [] {
      var n := |tools| - 1;
      NormalizeAllInOrder(p, tools[..n], raw[..n]);
      assert forall i :: 0 <= i < n ==> tools[..n][i] == tools[i] && raw[..n][i] == raw[i];
    }
  }

  // --- reduce_tool ---

  /** What reduce_tool comes to; a call or a normaliser that raises ends it before the fold. */
  datatype Reduced<A> = Accumulated(a: A) | ReducerFailed(index: nat, error: string) | BatchRaised(error: string)

  datatype StepResult<A> = Next(a: A) | Fails(error: string)

  /** The reducer applied from left to right, from the given position on. */
  function Fold<A>(reducer: (A, Json) -> StepResult<A>, a: A, results: seq<Json>, index: nat): Reduced<A>
    decreases |results|
  {
    if results == [] then Accumulated(a)
    else
      match reducer(a, results[0])
      case Next(b) => Fold(reducer, b, results[1..], index + 1)
      case Fails(error) => ReducerFailed(index, error)
  }

  /** The fold stops at the first step that fails, and says which one that was. */
  lemma {:induction false} FoldStops<A>(reducer: (A, Json) -> StepResult<A>, a: A, results: seq<Json>, index: nat)
    ensures Fold(reducer, a, results, index).ReducerFailed? ==>
      var failed := Fold(reducer, a, results, index);
      && index <= failed.index < index + |results|
      && Fold(reducer, a, results[..failed.index - index], index).Accumulated?
      && reducer(Fold(reducer, a, results[..failed.index - index], index).a, results[failed.index - index]) == Fails(failed.error)
    ensures !Fold(reducer, a, results, index).BatchRaised?
    decreases |results|
  {
    if results != [] {
      match reducer(a, results[0])
      case Next(b) =>
        FoldStops(reducer, b, results[1..], index + 1);
        var failed := Fold(reducer, a, results, index);
        if failed.ReducerFailed? {
          var k := failed.index - index;
          assert results[..k][1..] == results[1..][..k - 1];
        }
      case Fails(_) =>
        assert results[..0] == [];
    }
  }

  method ReduceResults<A>(reducer: (A, Json) -> StepResult<A>, initial: A, results: seq<Json>) returns (r: Reduced<A>)
    ensures r == Fold(reducer, initial, results, 0)
  {
    var accumulator := initial;
    for index := 0 to |results|
      invariant Fold(reducer, accumulator, results[index..], index) == Fold(reducer, initial, results, 0)
    {
      assert results[index..][1..] == results[index + 1..];
      match reducer(accumulator, results[index]) {
        case Next(b) => accumulator := b;
        case Fails(error) => return ReducerFailed(index, error);
      }
    }
    r := Accumulated(accumulator);
  }

  /** The fold with a reducer that never raises. */
  function FoldLeft<A>(f: (A, Json) -> A, a: A, results: seq<Json>): A {
    if results == [] then a else f(FoldLeft(f, a, results[..|results| - 1]), results[|results| - 1])
  }

  lemma {:induction false} FoldIsFoldLeft<A>(f: (A, Json) -> A, reducer: (A, Json) -> StepResult<A>, a: A,
                                             done: seq<Json>, results: seq<Json>, index: nat)
    requires forall b, v :: reducer(b, v) == Next(f(b, v))
    ensures Fold(reducer, FoldLeft(f, a, done), results, index) == Accumulated(FoldLeft(f, a, done + results))
    decreases |results|
  {
    if results == [] {
      assert done + results == done;
    } else {
      var more := done + [results[0]];
      assert more[..|more| - 1] == done;
      assert done + results == more + results[1..];
      FoldIsFoldLeft(f, reducer, a, more, results[1..], index + 1);
    }
  }

  /** reduce_tool from the moment gather hands over its outcome. */
  function ReduceTool<A>(p: Policy, tools: seq<string>, gathered: Outcome<seq<Json>>,
                         reducer: (A, Json) -> StepResult<A>, initial: A): Reduced<A>
    requires gathered.Returned? ==> |gathered.r| == |tools|
  {
    match gathered
    case Raised(error) => BatchRaised(error)
    case Returned(raw) =>
      match NormalizeAll(p, tools, raw)
      case Raised(error) => BatchRaised(error)
      case Returned(values) => Fold(reducer, initial, values, 0)
  }

  /** When no call and no reducer step raises, reduce_tool is, whatever the limit and the
      schedule, the sequential left fold over the calls' normalised values in input order,
      unless one of them does not normalise: then it raises that error. */
  lemma ReduceToolIsLeftFold<A>(p: Policy, f: (A, Json) -> A, reducer: (A, Json) -> StepResult<A>, initial: A,
                                tools: seq<string>, raw: seq<Json>, limit: nat, events: seq<Event<Json>>)
    requires |raw| == |tools| && forall b, v :: reducer(b, v) == Next(f(b, v))
    requires EnabledRun(Start<Json>(|raw|, limit), events) && Complete(Run(Start<Json>(|raw|, limit), events))
    requires FollowsOracle(events, seq(|raw|, i requires 0 <= i < |raw| => Returned(raw[i])))
    ensures var s := Run(Start<Json>(|raw|, limit), events);
      && (s.firstError.None? ==> forall i :: 0 <= i < |s.status| ==> s.status[i].outcome.Returned?)
      && GatherOutcome(s) == Returned(raw)
      && ReduceTool(p, tools, GatherOutcome(s), reducer, initial)
         == match NormalizeAll(p, tools, raw)
            case Returned(values) => Accumulated(FoldLeft(f, initial, values))
            case Raised(error) => BatchRaised(error)
  {
    ScheduleIndependent(raw, limit, events);
    match NormalizeAll(p, tools, raw)
    case Returned(values) =>
      FoldIsFoldLeft(f, reducer, initial, [], values, 0);
      assert [] + values == values;
    case Raised(_) =>
  }

  // --- first_success ---

  datatype First = Found(v: Json) | AllFailed(failures: seq<string>)

  /** Calls are tried one after the other; issued says how many were made. */
  method FirstSuccess(tools: seq<string>, outcomes: seq<CallOutcome>) returns (r: First, issued: nat)
    requires |outcomes| == |tools|
    ensures r.Found? <==> exists k :: 0 <= k < |outcomes| && outcomes[k].Value?
    ensures r.Found? ==>
      && 1 <= issued <= |outcomes| && outcomes[issued - 1] == Value(r.v)
      && forall k :: 0 <= k < issued - 1 ==> outcomes[k].CallError?
    ensures r.AllFailed? ==>
      && issued == |r.failures| == |outcomes|
      && forall k :: 0 <= k < |outcomes| ==>
           outcomes[k].CallError? && r.failures[k] == tools[k] + ": " + outcomes[k].summary
  {
    var failures: seq<string> := [];
    for i := 0 to |tools|
      invariant |failures| == i
      invariant forall k :: 0 <= k < i ==> outcomes[k].CallError? && failures[k] == tools[k] + ": " + outcomes[k].summary
    {
      match outcomes[i] {
        case Value(v) => return Found(v), i + 1;
        case CallError(summary) => failures := failures + [tools[i] + ": " + summary];
      }
    }
    r, issued := AllFailed(failures), |tools|;
  }
}
