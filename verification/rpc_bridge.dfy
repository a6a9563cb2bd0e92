/** The two sides together: a FIFO pipe of frames to Node, a FIFO pipe of results back, and
    every interleaving of calls, handlers, timeouts and late replies. */
module Bridge {
  import opened JsonText
  import opened Text
  import Client
  import Protocol

  /** The pipe to Python is everything Node wrote, and how much of it has been read.
      The history of calls is what Python asked for, in order. */
  datatype System = System(
    client: Client.State,
    toNode: seq<Protocol.Frame>,
    node: Protocol.State,
    read: nat,
    calls: seq<Protocol.Call>)

  const START := System(Client.START, [], Protocol.START, 0, [])

  datatype Event =
    | PyCall(tool: string, params: Json)
    | PyEmit(frame: Protocol.Frame)
    | PyRead
    | PyReaderFails(text: string)
    | PyCancel(n: nat)
    | PyForget(n: nat)
    | NodeRead(callbackThrows: bool)
    | NodeEvent(e: Protocol.Event)

  function Sent(s: System): seq<Protocol.Sent> {
    s.node.work.sent
  }

  /** A result frame as Python parses it. */
  function ResponseOf(frame: Protocol.Sent): Client.Response {
    match frame.reply
    case Value(v) => Client.Response(frame.id, Client.NoError, v)
    case Error(payload) => Client.Response(frame.id, Client.DictError(payload), Null)
  }

  /** Only the client makes tool_call frames; a call is forgotten after its future is done. */
  predicate Enabled(s: System, e: Event) {
    match e
    case PyCall(_, _) => true
    case PyEmit(frame) => !frame.ToolCall?
    case PyRead => s.client.reading && s.read < |Sent(s)|
    case PyReaderFails(_) => s.client.reading
    case PyCancel(n) => 1 <= n <= |s.client.futures|
    case PyForget(n) => 1 <= n <= |s.client.futures| && !s.client.futures[n - 1].Waiting?
    case NodeRead(_) => s.toNode != [] && !s.node.stdoutClosed
    case NodeEvent(e) => !e.Line? && Protocol.Enabled(s.node, e)
  }

  function Step(s: System, e: Event): System
    requires Enabled(s, e)
  {
    match e
    case PyCall(tool, params) =>
      var client := Client.StartCall(s.client);
      var call := Protocol.Call(Client.CallId(client.callId), tool, params);
      s.(client := client, toNode := s.toNode + [Protocol.ToolCall(call)], calls := s.calls + [call])
    case PyEmit(frame) => s.(toNode := s.toNode + [frame])
    case PyRead => s.(client := Client.HandleResponse(s.client, ResponseOf(Sent(s)[s.read])), read := s.read + 1)
    case PyReaderFails(text) => s.(client := Client.FailPending(s.client, text))
    case PyCancel(n) => s.(client := Client.CancelFuture(s.client, n))
    case PyForget(n) => s.(client := Client.ForgetCall(s.client, n))
    case NodeRead(callbackThrows) =>
      s.(node := Protocol.Step(s.node, Protocol.Line(s.toNode[0], callbackThrows)), toNode := s.toNode[1..])
    case NodeEvent(e) => s.(node := Protocol.Step(s.node, e))
  }

  // --- invariants ---

  /** The tool calls among the frames in the pipe. */
  function CallsIn(frames: seq<Protocol.Frame>): seq<Protocol.Call> {
    if frames == [] then []
    else (if frames[0].ToolCall? then [frames[0].call] else []) + CallsIn(frames[1..])
  }

  lemma {:induction false} CallsInConcat(a: seq<Protocol.Frame>, b: seq<Protocol.Frame>)
    ensures CallsIn(a + b) == CallsIn(a) + CallsIn(b)
  {
    if a == [] {
      assert a + b == b;
    } else {
      assert (a + b)[1..] == a[1..] + b;
      CallsInConcat(a[1..], b);
      Associative(if a[0].ToolCall? then [a[0].call] else [], CallsIn(a[1..]), CallsIn(b));
    }
  }

  /** Call n on the Python side is handler n on the Node side: the calls that Node has not
      counted yet are in the pipe, in order. */
  ghost predicate PipeInv(s: System) {
    && |s.calls| == s.client.callId
    && (forall i :: 0 <= i < |s.calls| ==> s.calls[i].id == Client.CallId(i + 1))
    && s.node.work.counters.calls <= |s.calls|
    && CallsIn(s.toNode) == s.calls[s.node.work.counters.calls..]
  }

  /** Handlers run the call of their number, and their frames carry its id. */
  ghost predicate HandlerInv(w: Protocol.Work, calls: seq<Protocol.Call>) {
    && w.counters.calls <= |calls|
    && (forall i :: 0 <= i < |calls| ==> calls[i].id == Client.CallId(i + 1))
    && (forall h <- w.running :: 1 <= h <= w.counters.calls && w.running[h] == calls[h - 1])
    && (forall i :: 0 <= i < |w.sent| ==> 1 <= w.sent[i].handler <= w.counters.calls && w.sent[i].id == Client.CallId(w.sent[i].handler))
  }

  /** Frame i of the pipe answers call n, has been read, and carries what the future holds: a
      value as a value, an error as an error. */
  ghost predicate Answers(sent: seq<Protocol.Sent>, read: nat, i: nat, n: nat, f: Client.FutureState) {
    && i < |sent| && i < read && sent[i].handler == n
    && (f.Resolved? ==> sent[i].reply == Protocol.Value(f.v))
    && (f.ToolFailed? ==> sent[i].reply == Protocol.Error(f.payload))
  }

  ghost predicate FutureInv(sent: seq<Protocol.Sent>, read: nat, n: nat, f: Client.FutureState) {
    && (f.Resolved? || f.ToolFailed? ==> exists i: nat :: Answers(sent, read, i, n, f))
    && (f.Waiting? ==> forall i :: 0 <= i < |sent| && i < read ==> sent[i].handler != n)
  }

  /** Futures hold replies to their own calls; a waiting future is still registered. */
  ghost predicate AnswerInv(s: System) {
    && s.read <= |Sent(s)|
    && Client.Valid(s.client)
    && (forall k :: 0 <= k < |s.client.futures| ==> FutureInv(Sent(s), s.read, k + 1, s.client.futures[k]))
    && (forall k :: 0 <= k < |s.client.futures| && s.client.futures[k].Waiting? ==> Client.CallId(k + 1) in s.client.pending)
  }

  ghost predicate Inv(s: System) {
    PipeInv(s) && HandlerInv(s.node.work, s.calls) && Protocol.WorkInv(s.node.work) && AnswerInv(s)
  }

  // --- the pipe ---

  lemma NodeWork(n: Protocol.State, e: Protocol.Event)
    requires Protocol.Enabled(n, e)
    ensures e.Line? && e.frame.ToolCall? ==>
      Protocol.Step(n, e).work == (if e.callbackThrows
        then Protocol.CountCall(n.work, e.frame.call).(abandoned := n.work.abandoned + 1)
        else Protocol.StartHandler(n.work, e.frame.call))
    ensures e.HandlerEnds? ==> Protocol.Step(n, e).work == Protocol.EndHandler(n.work, e.handler, e.ending)
    ensures !(e.Line? && e.frame.ToolCall?) && !e.HandlerEnds? ==>
      Protocol.Step(n, e).work == n.work.(stdinOpen := Protocol.Step(n, e).work.stdinOpen)
  {
  }

  /** Node takes the frame at the head of the pipe. */
  lemma NodeReadKeepsPipe(s: System, callbackThrows: bool)
    requires PipeInv(s) && Enabled(s, NodeRead(callbackThrows))
    ensures PipeInv(Step(s, NodeRead(callbackThrows)))
  {
    hide Protocol.Step, Client.CallId, CallsIn;
    var counted := s.node.work.counters.calls;
    NodeWork(s.node, Protocol.Line(s.toNode[0], callbackThrows));
    CallsInHead(s.toNode);
    if s.toNode[0].ToolCall? {
      assert s.calls[counted..][1..] == s.calls[counted + 1..];
      assert ([s.toNode[0].call] + CallsIn(s.toNode[1..]))[1..] == CallsIn(s.toNode[1..]);
    }
  }

  /** Python puts a frame at the end of the pipe. */
  lemma EmitKeepsPipe(s: System, e: Event)
    requires PipeInv(s) && Enabled(s, e) && (e.PyCall? || e.PyEmit?)
    ensures PipeInv(Step(s, e))
  {
    hide Client.CallId, CallsIn;
    var counted := s.node.work.counters.calls;
    match e
    case PyCall(tool, params) =>
      var call := Protocol.Call(Client.CallId(s.client.callId + 1), tool, params);
      CallsInConcat(s.toNode, [Protocol.ToolCall(call)]);
      CallsInOne(Protocol.ToolCall(call));
      assert (s.calls + [call])[counted..] == s.calls[counted..] + [call];
    case PyEmit(frame) =>
      CallsInConcat(s.toNode, [frame]);
      CallsInOne(frame);
      assert s.calls[counted..] + [] == s.calls[counted..];
  }

  lemma StepKeepsPipe(s: System, e: Event)
    requires PipeInv(s) && Enabled(s, e)
    ensures PipeInv(Step(s, e))
  {
    match e
    case NodeRead(callbackThrows) => NodeReadKeepsPipe(s, callbackThrows);
    case NodeEvent(ne) => OtherKeepsPipe(s, e);
    case PyCall(_, _) => EmitKeepsPipe(s, e);
    case PyEmit(_) => EmitKeepsPipe(s, e);
    case _ => OtherKeepsPipe(s, e);
  }

  lemma OtherKeepsPipe(s: System, e: Event)
    requires PipeInv(s) && Enabled(s, e) && !e.NodeRead? && !e.PyCall? && !e.PyEmit?
    ensures PipeInv(Step(s, e))
  {
    hide Protocol.Step, Client.HandleResponse, Client.CallId, CallsIn;
    match e
    case NodeEvent(ne) => NodeWork(s.node, ne);
    case PyRead => HandleKeepsId(s.client, ResponseOf(Sent(s)[s.read]));
    case _ =>
  }

  lemma HandleKeepsId(c: Client.State, r: Client.Response)
    ensures Client.HandleResponse(c, r).callId == c.callId
  {
  }

  lemma CallsInOne(frame: Protocol.Frame)
    ensures CallsIn([frame]) == if frame.ToolCall? then [frame.call] else []
  {
    assert [frame][1..] == [];
  }

  lemma CallsInHead(frames: seq<Protocol.Frame>)
    requires frames != []
    ensures CallsIn(frames) == (if frames[0].ToolCall? then [frames[0].call] else []) + CallsIn(frames[1..])
  {
  }

  // --- handlers ---

  lemma StartKeepsHandlers(w: Protocol.Work, calls: seq<Protocol.Call>, call: Protocol.Call)
    requires HandlerInv(w, calls) && w.counters.calls < |calls| && call == calls[w.counters.calls]
    ensures HandlerInv(Protocol.StartHandler(w, call), calls)
    ensures HandlerInv(Protocol.CountCall(w, call).(abandoned := w.abandoned + 1), calls)
  {
  }

  lemma EndKeepsHandlers(w: Protocol.Work, calls: seq<Protocol.Call>, h: nat, ending: Protocol.Ending)
    requires HandlerInv(w, calls) && h in w.running
    ensures HandlerInv(Protocol.EndHandler(w, h, ending), calls)
    ensures w.sent <= Protocol.EndHandler(w, h, ending).sent
  {
    hide Client.CallId;
    var t := Protocol.EndHandler(w, h, ending);
    assert t.sent == w.sent || (|t.sent| == |w.sent| + 1 && t.sent[..|w.sent|] == w.sent && t.sent[|w.sent|].handler == h
                                && t.sent[|w.sent|].id == w.running[h].id);
  }

  lemma MoreCallsKeepHandlers(w: Protocol.Work, calls: seq<Protocol.Call>, call: Protocol.Call)
    requires HandlerInv(w, calls) && call.id == Client.CallId(|calls| + 1)
    ensures HandlerInv(w, calls + [call])
  {
    hide Client.CallId;
  }

  lemma StepKeepsHandlers(s: System, e: Event)
    requires Inv(s) && Enabled(s, e)
    ensures HandlerInv(Step(s, e).node.work, Step(s, e).calls)
    ensures Sent(s) <= Sent(Step(s, e))
  {
    hide Protocol.Step, Protocol.StartHandler, Protocol.EndHandler, Client.HandleResponse, Client.CallId;
    hide HandlerInv, AnswerInv, Protocol.WorkInv, Client.Valid;
    match e
    case PyCall(tool, params) =>
      MoreCallsKeepHandlers(s.node.work, s.calls, Protocol.Call(Client.CallId(s.client.callId + 1), tool, params));
    case NodeRead(callbackThrows) =>
      NodeWork(s.node, Protocol.Line(s.toNode[0], callbackThrows));
      CallsInHead(s.toNode);
      if s.toNode[0].ToolCall? {
        StartKeepsHandlers(s.node.work, s.calls, s.toNode[0].call);
        SentOfStart(s.node.work, s.toNode[0].call);
      } else {
        StdinKeepsHandlers(s.node.work, s.calls, Step(s, e).node.work.stdinOpen);
      }
    case NodeEvent(ne) =>
      NodeWork(s.node, ne);
      if ne.HandlerEnds? {
        EndKeepsHandlers(s.node.work, s.calls, ne.handler, ne.ending);
      } else {
        StdinKeepsHandlers(s.node.work, s.calls, Step(s, e).node.work.stdinOpen);
      }
    case _ =>
  }

  lemma SentOfStart(w: Protocol.Work, call: Protocol.Call)
    ensures Protocol.StartHandler(w, call).sent == Protocol.CountCall(w, call).sent == w.sent
  {
  }

  lemma StdinKeepsHandlers(w: Protocol.Work, calls: seq<Protocol.Call>, open: bool)
    requires HandlerInv(w, calls)
    ensures HandlerInv(w.(stdinOpen := open), calls)
  {
  }

  // --- futures ---

  /** What a future holds stays justified while the pipe grows. */
  lemma GrowingKeepsFuture(sent: seq<Protocol.Sent>, more: seq<Protocol.Sent>, read: nat, n: nat, f: Client.FutureState)
    requires sent <= more && read <= |sent| && FutureInv(sent, read, n, f)
    ensures FutureInv(more, read, n, f)
  {
    if f.Resolved? || f.ToolFailed? {
      var i: nat :| Answers(sent, read, i, n, f);
      assert Answers(more, read, i, n, f);
    }
  }

  /** Reading the next frame settles the waiting future of its call and no other. */
  lemma ReadKeepsFuture(c: Client.State, sent: seq<Protocol.Sent>, read: nat, k: nat)
    requires Client.Valid(c) && read < |sent| && k < |c.futures|
    requires FutureInv(sent, read, k + 1, c.futures[k])
    requires c.futures[k].Waiting? ==> Client.CallId(k + 1) in c.pending
    requires sent[read].id == Client.CallId(sent[read].handler)
    ensures var t := Client.HandleResponse(c, ResponseOf(sent[read]));
      && FutureInv(sent, read + 1, k + 1, t.futures[k])
      && (t.futures[k].Waiting? ==> Client.CallId(k + 1) in t.pending)
  {
    hide Client.CallId;
    var r := ResponseOf(sent[read]);
    Client.ResponseReachesItsCall(c, r, k + 1);
    var after := Client.HandleResponse(c, r).futures[k];
    if c.futures[k].Resolved? || c.futures[k].ToolFailed? {
      var i: nat :| Answers(sent, read, i, k + 1, c.futures[k]);
      assert Answers(sent, read + 1, i, k + 1, c.futures[k]);
    } else if c.futures[k].Waiting? {
      if sent[read].handler == k + 1 {
        assert Answers(sent, read + 1, read, k + 1, after);
      } else if sent[read].id == Client.CallId(k + 1) {
        Client.CallIdInjective(sent[read].handler, k + 1);
      }
    }
  }

  lemma ReadKeepsAnswers(s: System)
    requires AnswerInv(s) && HandlerInv(s.node.work, s.calls) && Enabled(s, PyRead)
    ensures AnswerInv(Step(s, PyRead))
  {
    hide FutureInv, Client.CallId;
    var r := ResponseOf(Sent(s)[s.read]);
    var t := Client.HandleResponse(s.client, r);
    Client.HandleKeepsValid(s.client, r);
    assert |t.futures| == |s.client.futures|;
    forall k | 0 <= k < |t.futures|
      ensures FutureInv(Sent(s), s.read + 1, k + 1, t.futures[k])
      ensures t.futures[k].Waiting? ==> Client.CallId(k + 1) in t.pending
    {
      ReadKeepsFuture(s.client, Sent(s), s.read, k);
    }
  }

  lemma PyKeepsAnswers(s: System, e: Event)
    requires AnswerInv(s) && HandlerInv(s.node.work, s.calls) && Enabled(s, e)
    requires |s.calls| == s.client.callId
    requires e.PyCall? || e.PyEmit? || e.PyReaderFails? || e.PyCancel? || e.PyForget?
    ensures AnswerInv(Step(s, e))
  {
    hide Client.CallId, ResponseOf;
    match e
    case PyCall(tool, params) =>
      Client.StartCallFresh(s.client);
      assert forall i :: 0 <= i < |Sent(s)| ==> Sent(s)[i].handler != s.client.callId + 1;
    case PyForget(n) =>
      forall k | 0 <= k < |s.client.futures| && s.client.futures[k].Waiting?
        ensures Client.CallId(k + 1) in Client.ForgetCall(s.client, n).pending
      {
        if Client.CallId(k + 1) == Client.CallId(n) { Client.CallIdInjective(k + 1, n); }
      }
    case _ =>
  }

  lemma StepKeepsAnswers(s: System, e: Event)
    requires Inv(s) && Enabled(s, e)
    ensures AnswerInv(Step(s, e))
  {
    hide FutureInv, HandlerInv, Protocol.WorkInv, Client.Valid, Protocol.Step, Client.HandleResponse, Client.CallId;
    if e.PyRead? {
      ReadKeepsAnswers(s);
    } else if e.NodeRead? || e.NodeEvent? {
      StepKeepsHandlers(s, e);
      var t := Step(s, e);
      forall k | 0 <= k < |s.client.futures| ensures FutureInv(Sent(t), t.read, k + 1, t.client.futures[k]) {
        GrowingKeepsFuture(Sent(s), Sent(t), s.read, k + 1, s.client.futures[k]);
      }
    } else {
      PyKeepsAnswers(s, e);
    }
  }

  // --- runs ---

  lemma StepKeepsInv(s: System, e: Event)
    requires Inv(s) && Enabled(s, e)
    ensures Inv(Step(s, e))
  {
    hide PipeInv, HandlerInv, AnswerInv, Protocol.WorkInv, Protocol.Step, Client.Valid;
    StepKeepsPipe(s, e);
    StepKeepsHandlers(s, e);
    StepKeepsAnswers(s, e);
    if e.NodeRead? {
      Protocol.StepKeepsWork(s.node, Protocol.Line(s.toNode[0], e.callbackThrows));
    } else if e.NodeEvent? {
      Protocol.StepKeepsWork(s.node, e.e);
    }
  }

  lemma StartInv()
    ensures Inv(START)
  {
  }

  predicate EnabledRun(s: System, events: seq<Event>)
    decreases |events|
  {
    events == [] || (Enabled(s, events[0]) && EnabledRun(Step(s, events[0]), events[1..]))
  }

  function Run(s: System, events: seq<Event>): System
    requires EnabledRun(s, events)
    decreases |events|
  {
    if events == [] then s else Run(Step(s, events[0]), events[1..])
  }

  lemma {:induction false} RunKeepsInv(s: System, events: seq<Event>)
    requires Inv(s) && EnabledRun(s, events)
    ensures Inv(Run(s, events))
    decreases |events|
  {
    hide Inv, Step, Enabled;
    if events != [] {
      StepKeepsInv(s, events[0]);
      RunKeepsInv(Step(s, events[0]), events[1..]);
    }
  }

  // --- main results ---

  /** In every run, with replies in any order and with any timeouts: a future holds a value or
      a tool error only if Node wrote exactly that for the handler of the same number, which
      ran the very call that the future stands for; no handler answers twice; and a future
      is still waiting only while no reply to its call has been read. */
  lemma RepliesReachTheirOwnCalls(events: seq<Event>, n: nat)
    requires EnabledRun(START, events)
    requires 1 <= n <= Run(START, events).client.callId
    ensures var s := Run(START, events);
      |s.client.futures| == |s.calls| == s.client.callId && s.read <= |Sent(s)|
    ensures var s := Run(START, events); var f := s.client.futures[n - 1];
      && (f.Resolved? ==> exists i :: 0 <= i < s.read && Sent(s)[i].handler == n && Sent(s)[i].reply == Protocol.Value(f.v))
      && (f.ToolFailed? ==> exists i :: 0 <= i < s.read && Sent(s)[i].handler == n && Sent(s)[i].reply == Protocol.Error(f.payload))
      && (f.Waiting? ==> forall i :: 0 <= i < s.read ==> Sent(s)[i].handler != n)
      && (forall i, j :: 0 <= i < j < |Sent(s)| ==> Sent(s)[i].handler != Sent(s)[j].handler)
      && (n in s.node.work.running ==> s.node.work.running[n] == s.calls[n - 1])
  {
    hide Client.CallId, Run, EnabledRun;
    StartInv();
    assert Inv(Run(START, events)) by { RunKeepsInv(START, events); }
    var s := Run(START, events);
    var f := s.client.futures[n - 1];
    assert FutureInv(Sent(s), s.read, n, f);
    if f.Resolved? || f.ToolFailed? {
      var i: nat :| Answers(Sent(s), s.read, i, n, f);
      assert Sent(s)[i].handler == n;
    }
  }

  lemma StepKeepsSettled(s: System, e: Event, n: nat)
    requires Enabled(s, e) && 1 <= n <= |s.client.futures| && !s.client.futures[n - 1].Waiting?
    ensures n <= |Step(s, e).client.futures| && Step(s, e).client.futures[n - 1] == s.client.futures[n - 1]
  {
    match e
    case PyRead => Client.FuturesSettleOnce(s.client, ResponseOf(Sent(s)[s.read]), "", n, n);
    case _ =>
  }

  /** Each future settles at most once, whatever happens later on either side. */
  lemma {:induction false} FuturesSettleOnce(s: System, events: seq<Event>, n: nat)
    requires EnabledRun(s, events) && 1 <= n <= |s.client.futures| && !s.client.futures[n - 1].Waiting?
    ensures n <= |Run(s, events).client.futures| && Run(s, events).client.futures[n - 1] == s.client.futures[n - 1]
    decreases |events|
  {
    hide Step, Enabled;
    if events != [] {
      StepKeepsSettled(s, events[0], n);
      FuturesSettleOnce(Step(s, events[0]), events[1..], n);
    }
  }

  // --- where the state of a future comes from ---

  /** The event that wrote a result frame: its handler returned the value, or threw the error,
      or returned a value that failed to serialise with that error. */
  predicate Wrote(e: Event, frame: Protocol.Sent) {
    && e.NodeEvent? && e.e.HandlerEnds? && e.e.handler == frame.handler
    && match frame.reply
       case Value(v) => e.e.ending.Returns? && e.e.ending.serialises && e.e.ending.v == v
       case Error(p) =>
         || (e.e.ending.Throws? && e.e.ending.error == p)
         || (e.e.ending.Returns? && !e.e.ending.serialises && e.e.ending.serialiseError == p)
  }

  lemma SentStep(s: System, e: Event)
    requires Enabled(s, e)
    ensures Sent(s) <= Sent(Step(s, e))
    ensures forall i :: |Sent(s)| <= i < |Sent(Step(s, e))| ==> Wrote(e, Sent(Step(s, e))[i])
  {
    hide Protocol.Step, Protocol.StartHandler, Protocol.CountCall, Protocol.EndHandler, Client.HandleResponse, Client.CallId;
    match e
    case NodeRead(callbackThrows) =>
      NodeWork(s.node, Protocol.Line(s.toNode[0], callbackThrows));
      if s.toNode[0].ToolCall? { SentOfStart(s.node.work, s.toNode[0].call); }
    case NodeEvent(ne) =>
      NodeWork(s.node, ne);
      if ne.HandlerEnds? { Protocol.EndingWrites(s.node.work, ne.handler, ne.ending); }
    case _ =>
  }

  lemma {:induction false} SentByEnding(s: System, events: seq<Event>, i: nat)
    requires EnabledRun(s, events)
    ensures Sent(s) <= Sent(Run(s, events))
    ensures |Sent(s)| <= i < |Sent(Run(s, events))| ==> exists k :: 0 <= k < |events| && Wrote(events[k], Sent(Run(s, events))[i])
    decreases |events|
  {
    hide Step, Enabled, Wrote;
    if events != [] {
      var next, rest := Step(s, events[0]), events[1..];
      SentStep(s, events[0]);
      SentByEnding(next, rest, i);
      var frames := Sent(Run(s, events));
      if |Sent(s)| <= i < |Sent(next)| {
        assert frames[i] == Sent(next)[i];
        assert Wrote(events[0], frames[i]);
      } else if |Sent(next)| <= i < |frames| {
        var k :| 0 <= k < |rest| && Wrote(rest[k], frames[i]);
        assert events[k + 1] == rest[k];
      }
    }
  }

  lemma StepEndings(s: System, e: Event, n: nat)
    requires Enabled(s, e) && 1 <= n <= |Step(s, e).client.futures|
    requires n <= |s.client.futures| ==> !s.client.futures[n - 1].Failed? && !s.client.futures[n - 1].Cancelled?
    ensures Step(s, e).client.futures[n - 1].Failed? ==> e == PyReaderFails(Step(s, e).client.futures[n - 1].text)
    ensures Step(s, e).client.futures[n - 1].Cancelled? ==> e == PyCancel(n)
  {
    hide Client.CallId, Protocol.Step;
  }

  lemma {:induction false} OtherEndings(s: System, events: seq<Event>, n: nat)
    requires EnabledRun(s, events) && 1 <= n <= |Run(s, events).client.futures|
    requires n <= |s.client.futures| ==> !s.client.futures[n - 1].Failed? && !s.client.futures[n - 1].Cancelled?
    ensures var f := Run(s, events).client.futures[n - 1];
      && (f.Failed? ==> exists k :: 0 <= k < |events| && events[k] == PyReaderFails(f.text))
      && (f.Cancelled? ==> exists k :: 0 <= k < |events| && events[k] == PyCancel(n))
    decreases |events|
  {
    hide Step, Enabled;
    if events != [] {
      var next, rest := Step(s, events[0]), events[1..];
      if n <= |next.client.futures| {
        StepEndings(s, events[0], n);
      }
      if n <= |next.client.futures| && (next.client.futures[n - 1].Failed? || next.client.futures[n - 1].Cancelled?) {
        FuturesSettleOnce(next, rest, n);
        assert events[0] == events[0];
      } else {
        OtherEndings(next, rest, n);
        assert forall k :: 0 <= k < |rest| ==> rest[k] == events[k + 1];
      }
    }
  }

  /** Over every run, what a future ends with is what happened to its call: it holds a value only
      if the handler of that number returned it, a tool error only if that handler threw it or
      returned something that failed to serialise with it, a reader's error only if the reader
      failed with it, and it is cancelled only if its own call timed out or was cancelled. */
  lemma FuturesTellTheirCalls(events: seq<Event>, n: nat)
    requires EnabledRun(START, events) && 1 <= n <= Run(START, events).client.callId
    ensures |Run(START, events).client.futures| == Run(START, events).client.callId
    ensures match Run(START, events).client.futures[n - 1]
      case Waiting => true
      case Resolved(v) =>
        exists k :: 0 <= k < |events| && events[k].NodeEvent? && events[k].e.HandlerEnds? && events[k].e.handler == n
                    && events[k].e.ending.Returns? && events[k].e.ending.v == v && events[k].e.ending.serialises
      case ToolFailed(p) =>
        exists k :: 0 <= k < |events| && events[k].NodeEvent? && events[k].e.HandlerEnds? && events[k].e.handler == n
                    && (if events[k].e.ending.Throws? then events[k].e.ending.error == p
                        else !events[k].e.ending.serialises && events[k].e.ending.serialiseError == p)
      case Failed(text) => exists k :: 0 <= k < |events| && events[k] == PyReaderFails(text)
      case Cancelled => exists k :: 0 <= k < |events| && events[k] == PyCancel(n)
  {
    RepliesReachTheirOwnCalls(events, n);
    hide Run, EnabledRun, Step, Enabled;
    var s := Run(START, events);
    var f := s.client.futures[n - 1];
    OtherEndings(START, events, n);
    if f.Resolved? || f.ToolFailed? {
      var i :| 0 <= i < s.read && Sent(s)[i].handler == n
               && Sent(s)[i].reply == if f.Resolved? then Protocol.Value(f.v) else Protocol.Error(f.payload);
      SentByEnding(START, events, i);
      var k :| 0 <= k < |events| && Wrote(events[k], Sent(s)[i]);
      assert events[k].e.handler == n;
    }
  }

  /** What Python asked for, in order. */
  function Asked(events: seq<Event>): seq<(string, Json)> {
    if events == [] then []
    else (if events[0].PyCall? then [(events[0].tool, events[0].params)] else []) + Asked(events[1..])
  }

  /** What a list of calls asks for. */
  function Asks(calls: seq<Protocol.Call>): (asks: seq<(string, Json)>)
    ensures |asks| == |calls|
    ensures forall i :: 0 <= i < |calls| ==> asks[i] == (calls[i].tool, calls[i].params)
  {
    seq(|calls|, i requires 0 <= i < |calls| => (calls[i].tool, calls[i].params))
  }

  lemma CallsOfStep(s: System, e: Event)
    requires Enabled(s, e)
    ensures Asks(Step(s, e).calls) == Asks(s.calls) + if e.PyCall? then [(e.tool, e.params)] else []
  {
  }

  lemma {:induction false} CallsOfRun(s: System, events: seq<Event>)
    requires EnabledRun(s, events)
    ensures Asks(Run(s, events).calls) == Asks(s.calls) + Asked(events)
    decreases |events|
  {
    hide Step, Enabled, Asks;
    if events == [] {
      assert Asks(s.calls) + [] == Asks(s.calls);
    } else {
      var e := events[0];
      CallsOfStep(s, e);
      CallsOfRun(Step(s, e), events[1..]);
      Associative(Asks(s.calls), if e.PyCall? then [(e.tool, e.params)] else [], Asked(events[1..]));
    }
  }

  lemma CallsNumbered(s: System, n: nat)
    requires Inv(s) && 1 <= n <= |s.calls|
    ensures |s.client.futures| == |s.calls|
    ensures s.calls[n - 1] == Protocol.Call(Client.CallId(n), Asks(s.calls)[n - 1].0, Asks(s.calls)[n - 1].1)
    ensures n in s.node.work.running ==> s.node.work.running[n] == s.calls[n - 1]
  {
    hide Client.CallId, CallsIn, Protocol.WorkInv;
  }

  /** Over every run the call behind future n is the n-th that Python asked for, with its tool and
      its parameters, and that is the call that handler n runs. */
  lemma HandlersRunWhatWasAsked(events: seq<Event>, n: nat)
    requires EnabledRun(START, events) && 1 <= n <= |Asked(events)|
    ensures var s, asked := Run(START, events), Asked(events)[n - 1];
      && |s.client.futures| == |Asked(events)| == |s.calls|
      && s.calls[n - 1] == Protocol.Call(Client.CallId(n), asked.0, asked.1)
      && (n in s.node.work.running ==> s.node.work.running[n] == s.calls[n - 1])
  {
    StartInv();
    RunKeepsInv(START, events);
    CallsOfRun(START, events);
    hide Client.CallId, Run, EnabledRun, Step, Inv, Asked;
    var s := Run(START, events);
    assert Asks(s.calls) == Asked(events);
    CallsNumbered(s, n);
  }
}
