/** Printed text on its way to Node: Python cuts it into frames at line ends and on flushes,
    Node glues the frames together again. */
module StdoutFraming {
  import opened Wrappers
  import opened Text
  import Protocol

  // --- lines ---

  /** The complete lines of a text, each with its newline. */
  function Lines(s: string): seq<string>
    decreases |s|
  {
    var i := IndexOf('\n', s);
    if i == |s| then [] else [s[..i + 1]] + Lines(s[i + 1..])
  }

  /** What follows the last newline. */
  function Rest(s: string): (r: string)
    ensures Lacks('\n', r)
    decreases |s|
  {
    var i := IndexOf('\n', s);
    if i == |s| then s else Rest(s[i + 1..])
  }

  function Flatten(frames: seq<string>): string {
    if frames == [] then [] else frames[0] + Flatten(frames[1..])
  }

  lemma {:induction false} FlattenConcat(a: seq<string>, b: seq<string>)
    ensures Flatten(a + b) == Flatten(a) + Flatten(b)
  {
    if a == [] {
      assert a + b == b;
    } else {
      assert (a + b)[1..] == a[1..] + b;
      FlattenConcat(a[1..], b);
    }
  }

  /** Cutting into lines loses nothing. */
  lemma {:induction false} LinesComplete(s: string)
    ensures Flatten(Lines(s)) + Rest(s) == s
    decreases |s|
  {
    var i := IndexOf('\n', s);
    if i < |s| {
      LinesComplete(s[i + 1..]);
      var line, more := s[..i + 1], s[i + 1..];
      LinesStep(s, i);
      hide Lines, Rest, IndexOf;
      FlattenCons(line, Lines(more));
      Reassemble(s, i + 1, Flatten(Lines(more)), Rest(more));
    }
  }

  lemma Reassemble(s: string, k: nat, a: string, b: string)
    requires k <= |s| && a + b == s[k..]
    ensures s[..k] + a + b == s
  {
  }

  lemma FlattenCons(line: string, lines: seq<string>)
    ensures Flatten([line] + lines) == line + Flatten(lines)
  {
    assert ([line] + lines)[1..] == lines;
  }

  lemma LinesStep(s: string, i: nat)
    requires i == IndexOf('\n', s) < |s|
    ensures Lines(s) == [s[..i + 1]] + Lines(s[i + 1..]) && Rest(s) == Rest(s[i + 1..])
  {
    LinesUnfold(s, i);
    RestUnfold(s, i);
  }

  lemma LinesUnfold(s: string, i: nat)
    requires i == IndexOf('\n', s) < |s|
    ensures Lines(s) == [s[..i + 1]] + Lines(s[i + 1..])
  {
    hide IndexOf, Lacks, Rest;
  }

  lemma RestUnfold(s: string, i: nat)
    requires i == IndexOf('\n', s) < |s|
    ensures Rest(s) == Rest(s[i + 1..])
  {
    hide IndexOf, Lacks, Lines;
  }

  lemma LinesConcatStep(a: string, b: string, i: nat)
    requires i == IndexOf('\n', a) < |a|
    requires Lines(a[i + 1..] + b) == Lines(a[i + 1..]) + Lines(Rest(a[i + 1..]) + b)
    requires Rest(a[i + 1..] + b) == Rest(Rest(a[i + 1..]) + b)
    ensures Lines(a + b) == Lines(a) + Lines(Rest(a) + b)
    ensures Rest(a + b) == Rest(Rest(a) + b)
  {
    hide Lines, Rest, IndexOf, Lacks;
    var s := a + b;
    assert s[..i] == a[..i] && s[i] == a[i];
    IndexOfAt('\n', s, i);
    LinesStep(a, i);
    LinesStep(s, i);
    assert s[i + 1..] == a[i + 1..] + b;
    Associative([s[..i + 1]], Lines(a[i + 1..]), Lines(Rest(a[i + 1..]) + b));
    assert a[..i + 1] == s[..i + 1];
  }

  /** Text that arrives in two pieces gives the same lines as text that arrives in one. */
  lemma {:induction false} LinesConcat(a: string, b: string)
    ensures Lines(a + b) == Lines(a) + Lines(Rest(a) + b)
    ensures Rest(a + b) == Rest(Rest(a) + b)
    decreases |a|
  {
    var i := IndexOf('\n', a);
    if i == |a| {
      assert Lines(a) == [] && Rest(a) == a;
    } else {
      hide Lines, Rest, IndexOf, Lacks;
      LinesConcat(a[i + 1..], b);
      LinesConcatStep(a, b, i);
    }
  }

  lemma NoNewlineLines(s: string)
    requires Lacks('\n', s)
    ensures Lines(s) == [] && Rest(s) == s
  {
  }

  // --- the proxy ---

  class StdoutProxy {
    var buffer: string
    var emitted: seq<string>

    ghost predicate Valid()
      reads this
    {
      Lacks('\n', buffer)
    }

    constructor ()
      ensures Valid() && buffer == "" && emitted == []
    {
      buffer, emitted := "", [];
    }

    method Write(text: string) returns (n: nat)
      requires Valid()
      modifies this
      ensures Valid() && n == |text|
      ensures emitted == old(emitted) + Lines(old(buffer) + text)
      ensures buffer == Rest(old(buffer) + text)
    {
      if text == "" {
        assert old(buffer) + text == old(buffer);
        NoNewlineLines(buffer);
        return 0;
      }
      buffer := buffer + text;
      while IndexOf('\n', buffer) < |buffer|
        invariant emitted + Lines(buffer) == old(emitted) + Lines(old(buffer) + text)
        invariant Rest(buffer) == Rest(old(buffer) + text)
        decreases |buffer|
      {
        var i := IndexOf('\n', buffer);
        emitted := emitted + [buffer[..i + 1]];
        buffer := buffer[i + 1..];
      }
      NoNewlineLines(buffer);
      n := |text|;
    }

    method Flush()
      requires Valid()
      modifies this
      ensures Valid() && buffer == ""
      ensures emitted == if old(buffer) == "" then old(emitted) else old(emitted) + [old(buffer)]
    {
      if buffer != "" {
        emitted := emitted + [buffer];
        buffer := "";
      }
    }
  }

  // --- whole sessions ---

  datatype Op = Write(text: string) | Flush

  datatype Proxy = Proxy(emitted: seq<string>, buffer: string)

  /** The effect of one method of the proxy. */
  function Apply(p: Proxy, op: Op): Proxy {
    match op
    case Write(text) => Proxy(p.emitted + Lines(p.buffer + text), Rest(p.buffer + text))
    case Flush => if p.buffer == "" then p else Proxy(p.emitted + [p.buffer], "")
  }

  function ApplyAll(p: Proxy, ops: seq<Op>): Proxy
    decreases |ops|
  {
    if ops == [] then p else ApplyAll(Apply(p, ops[0]), ops[1..])
  }

  function Written(ops: seq<Op>): string {
    if ops == [] then [] else (if ops[0].Write? then ops[0].text else []) + Written(ops[1..])
  }

  lemma ApplyTransparent(p: Proxy, op: Op)
    requires Lacks('\n', p.buffer)
    ensures var q := Apply(p, op);
      && Flatten(q.emitted) + q.buffer == Flatten(p.emitted) + p.buffer + (if op.Write? then op.text else [])
      && Lacks('\n', q.buffer)
  {
    hide Lines, Rest, Flatten;
    match op
    case Write(text) =>
      LinesComplete(p.buffer + text);
      FlattenConcat(p.emitted, Lines(p.buffer + text));
      assert Flatten(p.emitted) + p.buffer + text == Flatten(p.emitted) + (p.buffer + text);
    case Flush =>
      FlattenConcat(p.emitted, [p.buffer]);
      FlattenOne(p.buffer);
      assert Flatten(p.emitted) + p.buffer + [] == Flatten(p.emitted) + p.buffer;
  }

  lemma FlattenOne(frame: string)
    ensures Flatten([frame]) == frame
  {
    assert [frame][1..] == [];
  }

  /** Nothing is lost, duplicated or reordered: at every moment the frames sent and the buffer
      are the text written so far, and no complete line is held back. */
  lemma {:induction false} FramingTransparent(p: Proxy, ops: seq<Op>)
    requires Lacks('\n', p.buffer)
    ensures var q := ApplyAll(p, ops);
      Flatten(q.emitted) + q.buffer == Flatten(p.emitted) + p.buffer + Written(ops) && Lacks('\n', q.buffer)
    decreases |ops|
  {
    hide Lines, Rest, Flatten, Apply;
    if ops == [] {
      assert Flatten(p.emitted) + p.buffer + [] == Flatten(p.emitted) + p.buffer;
    } else {
      var text := if ops[0].Write? then ops[0].text else [];
      ApplyTransparent(p, ops[0]);
      FramingTransparent(Apply(p, ops[0]), ops[1..]);
      var sofar := Flatten(p.emitted) + p.buffer;
      assert (sofar + text) + Written(ops[1..]) == sofar + (text + Written(ops[1..]));
    }
  }

  lemma ApplyWrite(p: Proxy, text: string)
    ensures Apply(p, Write(text)) == Proxy(p.emitted + Lines(p.buffer + text), Rest(p.buffer + text))
    ensures Lacks('\n', Apply(p, Write(text)).buffer)
  {
  }

  predicate OnlyWrites(ops: seq<Op>) {
    forall i :: 0 <= i < |ops| ==> ops[i].Write?
  }

  lemma FramesStep(p: Proxy, text: string, later: string)
    ensures p.emitted + Lines(p.buffer + text) + Lines(Rest(p.buffer + text) + later) == p.emitted + Lines(p.buffer + (text + later))
    ensures Rest(Rest(p.buffer + text) + later) == Rest(p.buffer + (text + later))
  {
    hide Lines, Rest;
    LinesConcat(p.buffer + text, later);
    Associative(p.buffer, text, later);
    Associative(p.emitted, Lines(p.buffer + text), Lines(Rest(p.buffer + text) + later));
  }

  /** Without flushes even the frames do not depend on how the text was cut into writes. */
  lemma {:induction false} FramesOfWrites(p: Proxy, ops: seq<Op>)
    requires Lacks('\n', p.buffer) && OnlyWrites(ops)
    ensures ApplyAll(p, ops) == Proxy(p.emitted + Lines(p.buffer + Written(ops)), Rest(p.buffer + Written(ops)))
    decreases |ops|
  {
    hide Lines, Rest, Lacks;
    if ops == [] {
      assert p.buffer + [] == p.buffer && p.emitted + [] == p.emitted;
      NoNewlineLines(p.buffer);
    } else {
      ApplyWrite(p, ops[0].text);
      FramesOfWrites(Apply(p, ops[0]), ops[1..]);
      FramesStep(p, ops[0].text, Written(ops[1..]));
    }
  }

  // --- Node's view ---

  /** What can happen on Node's side without settling anything: frames of other kinds, handlers
      that end, stderr, exits, a closed stdin, the timeout. */
  predicate SettlesNothing(e: Protocol.Event) {
    match e
    case Line(frame, callbackThrows) => !callbackThrows && !frame.Complete? && !frame.ErrorFrame? && !frame.Malformed?
    case Stderr(_) => true
    case ProcessExit(_, _) => true
    case ProcessClose(_, _) => true
    case Timeout => true
    case StdinDestroyed => true
    case HandlerEnds(_, _) => true
    case _ => false
  }

  /** The texts of the stdout frames among the events, in order. */
  function TextsOf(events: seq<Protocol.Event>): seq<string> {
    if events == [] then []
    else (if events[0].Line? && events[0].frame.Stdout? then [events[0].frame.text] else []) + TextsOf(events[1..])
  }

  /** Node's handler glues the stdout frames together behind what it has, whatever else happens
      between them. */
  lemma {:induction false} NodeGlues(s: Protocol.State, events: seq<Protocol.Event>)
    requires Protocol.EnabledRun(s, events) && forall e <- events :: SettlesNothing(e)
    ensures var t := Protocol.Run(s, events);
      && t.stdout == s.stdout + Flatten(TextsOf(events))
      && t.completion == s.completion && t.microtasks == s.microtasks && t.stdoutClosed == s.stdoutClosed
    decreases |events|
  {
    if events == [] {
      assert s.stdout + [] == s.stdout;
    } else {
      var e, rest := events[0], events[1..];
      var next := Protocol.Step(s, e);
      StepGlues(s, e);
      NodeGlues(next, rest);
      hide Protocol.Step, SettlesNothing;
      var text := if e.Line? && e.frame.Stdout? then [e.frame.text] else [];
      FlattenConcat(text, TextsOf(rest));
      Associative(s.stdout, Flatten(text), Flatten(TextsOf(rest)));
    }
  }

  lemma StepGlues(s: Protocol.State, e: Protocol.Event)
    requires Protocol.Enabled(s, e) && SettlesNothing(e)
    ensures var t := Protocol.Step(s, e);
      && t.stdout == s.stdout + Flatten(if e.Line? && e.frame.Stdout? then [e.frame.text] else [])
      && t.completion == s.completion && t.microtasks == s.microtasks && t.stdoutClosed == s.stdoutClosed
  {
    if e.Line? && e.frame.Stdout? { FlattenOne(e.frame.text); }
    assert s.stdout + [] == s.stdout;
  }

  /** End to end: after the final flush the output that Node settles with depends on the
      concatenation of the writes alone: not on how it was cut or flushed on the way, nor on the
      progress frames, tool calls and other events between the stdout frames. */
  lemma OutputDependsOnTextOnly(s: Protocol.State, ops: seq<Op>, events: seq<Protocol.Event>, output: string, hasReport: bool)
    requires s.completion.None? && s.stdout == "" && !s.stdoutClosed
    requires Protocol.EnabledRun(s, events) && forall e <- events :: SettlesNothing(e)
    requires TextsOf(events) == ApplyAll(Proxy([], ""), ops + [Flush]).emitted
    ensures var t, complete := Protocol.Run(s, events), Protocol.Line(Protocol.Complete(output, hasReport), false);
      && Protocol.Enabled(t, complete)
      && Protocol.Step(t, complete).completion
         == Some(Protocol.Success(
              if Written(ops) == "" then output else Trim(IsJsSpace, Written(ops) + output), hasReport, t.work.counters))
  {
    hide Trim, Lines, Rest, SettlesNothing;
    var start := Proxy([], "");
    var q := ApplyAll(start, ops + [Flush]);
    FramingTransparent(start, ops + [Flush]);
    WrittenFlush(ops);
    EndsEmpty(start, ops);
    assert Flatten(start.emitted) + start.buffer + Written(ops) == Written(ops);
    assert Flatten(q.emitted) == Written(ops);
    NodeGlues(s, events);
    assert s.stdout + Written(ops) == Written(ops);
  }

  lemma {:induction false} WrittenFlush(ops: seq<Op>)
    ensures Written(ops + [Flush]) == Written(ops)
  {
    if ops == [] {
      assert ops + [Flush] == [Flush] && [Flush][1..] == [];
    } else {
      assert (ops + [Flush])[1..] == ops[1..] + [Flush];
      WrittenFlush(ops[1..]);
    }
  }

  lemma {:induction false} EndsEmpty(p: Proxy, ops: seq<Op>)
    ensures ApplyAll(p, ops + [Flush]).buffer == ""
    decreases |ops|
  {
    if ops == [] {
      assert ops + [Flush] == [Flush] && [Flush][1..] == [];
    } else {
      assert (ops + [Flush])[1..] == ops[1..] + [Flush];
      EndsEmpty(Apply(p, ops[0]), ops[1..]);
    }
  }
}
