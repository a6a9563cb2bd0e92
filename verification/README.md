# Programmatic Tool Calling, verified

The system runs model-written Python in a child process. The Python calls host tools over a
line-based bridge, and the host shows one bounded answer to the model. This project models the
parts of that system whose behaviour is hard to see from any one function, and proves what they
keep over every run, every schedule and every input.

| files | what they model |
|---|---|
| `rpc_protocol.dfy`, `rpc_protocol_class.dfy` | the Node side of the bridge: a step system over frames, closes, exits, aborts, timeouts, handlers that end in any order and a FIFO microtask queue; and the class whose event handlers update fields and refine those steps |
| `settlement.dfy` | what a run tells the caller: which event settles it with what, timeouts, counters |
| `rpc_client.dfy`, `rpc_bridge.dfy` | the Python client with its pending futures, and both sides with the two pipes between them |
| `wrappers.dfy`, `numerals.dfy`, `text.dfy`, `json_text.dfy`, `key_order.dfy`, `bmp.dfy` | decimal digits, code points against UTF-16 units, the two ideas of white space, the JSON printer, and which values print within the Basic Multilingual Plane (BMP) |
| `json_reader.dfy`, `json_round_trip.dfy`, `json_validity.dfy`, `json_paths.dfy` | a JSON reader after RFC 8259, written without the printer, the round trip between the two, which values print as JSON at all, and places inside a value |
| `compaction.dfy`, `compaction_paths.dfy`, `fit_output.dfy`, `fit_reading.dfy`, `truncation.dfy`, `end_to_end.dfy` | recursive compaction and what stands where in a preview, the shrink loop and what a reader learns from its result, the self-referential notice, and the three together |
| `stdout_framing.dfy`, `gather.dfy`, `orchestration.dfy` | printed text on its way to Node, bounded concurrency, the helpers on top of it |
| `paths.dfy`, `workspace.dfy`, `grep.dfy`, `handles.dfy`, `handle_places.dfy` | posixpath, the translation between runtime root and host root, the grep parser, handle collection and which places of a value it visits |
| `tool_registry.dfy`, `callable_policy.dfy` | tombstones and the overlay of four tool sources, the policy filter and its diagnosis |
| `session.dfy`, `session_class.dfy` | routing and restoring of the tool list, one-shot recovery; and the session object with its shared recovery records |

Code that changes state is written as methods and classes that are proved equal to a step or a
specification function; the main results are lemmas about those functions. What a function
produces for someone else to read is read back by a definition of its own: printed JSON by a
reader with its own table of escapes (`JsonRoundTrip.PrintReadsBack`), the notice by a reader of
its two numbers (`Truncation.NoticeAccuracy`), a preview path by path
(`CompactionPaths.PathsOfPreview`), a future by the history of the run
(`Bridge.FuturesTellTheirCalls`). A `ghost` field in
a class is history or numbering; the others are the source's own, or stand for the pipe, the event
loop and the host around the object.

## What the code does that one might not expect

Where the code falls short of what one would like to promise, the exact condition is proved:

- The truncation notice can print one character more than is shown. It does so exactly when no
  count would be true of itself, which is when the limit is 52, the digits of the total, a power
  of ten and its exponent added up (`Truncation.NoticeAccuracy`, `Truncation.TwoCycleExactly`): a
  limit of 66 on 100 units keeps 9 and says 10 (`Truncation.OneTooHighExample`).
- A malformed frame loses to a complete or error frame that arrives in the same chunk, because
  its rejection waits for a microtask (`Protocol.ChunkOutcome`, `Protocol.MalformedThenComplete`).
- When the update callback throws for a tool call, its rejection takes two turns of the queue, so a
  close that follows at once reports an early end instead; for an update frame it takes one turn
  and wins (`Settlement.ThrowAgainstClose`).
- A tool value that fails to serialise counts as a result and as an error, and a call whose
  update callback throws counts as neither and is never answered; both are explicit terms of
  `Protocol.Conservation`, and both happen in `Protocol.CountedTwiceExample`.
- What Python prints for a value is JSON, and reads back as the value, exactly when no float in it
  is NaN or infinite: those print as `NaN`, `Infinity` and `-Infinity`, which no reader of JSON
  accepts anywhere in a text (`JsonValidity.JsonExactlyForNumbers`).
- Compaction can say "truncated" over an unchanged preview, for exactly the strings that already
  read `x...` under a character budget below 4 (`Compaction.TruncatedButUnchanged`). Compacting a
  preview again is the identity exactly when every placeholder fits the budget
  (`Compaction.CompactIdempotent`, `Compaction.PlaceholderCutExample`).
- A fitted value without characters outside the BMP passes the host's truncation uncut exactly
  when the session limit is at least 47, the length of the last-resort dict
  (`EndToEnd.FitOutputArrivesWhole`). A character outside the BMP costs a second UTF-16 unit that
  Python does not count: for every value that holds one there is a session limit that Python
  honours and Node cuts at (`EndToEnd.AstralIsCut`), so the promise for all sessions and arguments
  is kept for exactly the BMP values (`EndToEnd.NeverCutExactlyForBmp`).
- TypeScript's `trim` and Python's `strip` differ on U+001C to U+001F, U+0085 and U+FEFF, so the
  two handle collectors agree exactly when no handle has such a character at its ends
  (`Handles.TypeScriptAndPythonAgree`).
- Discovery translates absolute paths twice. That is harmful exactly when one root lies properly
  below the other, where POSIX keeps paths with two leading slashes apart and a bare `/` as the
  host root contains every runtime root with one. Under a bare runtime root the source's prefix
  test looks for two slashes: there it is harmful exactly for `/` with a host root of two leading
  slashes and a component (`Workspace.DoubleTranslationHarmless`). For the same reason a path moved
  below a bare host root is not made relative again (`Workspace.SameSuffixSameText`).
- Grep output is read back exactly when, line breaks and outer white space aside, no path contains
  a number between two separators, the path's own separator included (`Grep.RoundTrip`).
- The diagnosis for allowlisted tools, taken alone, would call some callable tools mutating; it
  is right because callable tools are skipped first (`CallablePolicy.CascadeMirrorsFilter`).
- Dropping the allowlist does not only add tools: it loses exactly the opt-in ones
  (`CallablePolicy.DroppingTheAllowlist`).
- A second routing that changes an already routed tool list overwrites the saved one, and the
  original list is not restored (`Session.RestoresExactly`, `Session.SecondRoutingLosesTool`). A
  request gets at most one recovery message exactly when no execution left over from earlier
  requests can still recover (`Session.AtMostOneInjection`, `Session.LeftoverExecutionAddsOne`).

## Model

| member | source | states |
|---|---|---|
| Protocol.Conservation | src/rpc-protocol.ts:455-485 | in every reachable state each counted call has its name and is a result, an error, a running handler or abandoned by a throwing callback, double counts being the values that failed to serialise; no handler sends two frames, and none while running |
| Protocol.CountedTwiceExample | src/rpc-protocol.ts:459-484 | a value that fails to serialise is one result and one error, and a throwing callback leaves a counted call that is neither |
| Protocol.SettlesOnce | src/rpc-protocol.ts:345-359 | over every run a settled completion, with the counters in it, never changes, nor does what the waiting caller was told |
| Protocol.ExitNeverSettles | src/rpc-protocol.ts:246-260 | exit, close and stderr events in any number and order settle nothing and queue nothing |
| Protocol.CompleteWins | src/rpc-protocol.ts:418-426 | a complete frame read before stdout closes, with nothing settled earlier, ends in success with that output whatever exits came before and whatever events follow |
| Protocol.MicrotaskProgress | src/rpc-protocol.ts:225-242 | each microtask leaves strictly less queued work, though a relayed rejection queues another |
| Protocol.ClosedSettles | src/rpc-protocol.ts:230-242 | in every reachable state with stdout closed, draining the microtasks settles the completion and the caller has an answer |
| Protocol.ChunkOutcome | src/rpc-protocol.ts:225-229 | for any chunk of frames the outcome is the first complete or error frame if there is one, else the first malformed line |
| Protocol.MalformedThenComplete | src/rpc-protocol.ts:388-389 | the same two frames give success in one chunk and a protocol failure in two |
| Protocol.EndingWrites | src/rpc-protocol.ts:466-491 | a handler answers once, while stdin is open, under the id of its call: with the value it returned, the error it threw, or the error of a value that does not serialise |
| Settlement.FirstSettlement | src/rpc-protocol.ts:225-275 | over every run, the event by which an unsettled execution settles and with what: a complete frame with everything printed before its output, an error frame with its message, an abort, a transport error with its message, a microtask with the rejection it carries or, for the close, with all of stderr and the last exit; nothing else |
| Settlement.SettlementOf | src/rpc-protocol.ts:225-275 | the same with the microtasks behind the event drained: malformed frames, throwing callbacks and the close settle too, and each with its own outcome |
| Settlement.ThrowAgainstClose | src/rpc-protocol.ts:455-464 | a throwing callback of a tool call loses to a close that comes in the same turn, one of an update frame wins |
| Settlement.TimeoutAnswers | src/rpc-protocol.ts:493-513 | over every run with a timeout the caller is told that it timed out exactly when nothing settled before the first one, and otherwise that settlement; without a timeout it is told what settled |
| Settlement.CountersTellTheRun | src/rpc-protocol.ts:455-485 | over every run the counters are those of the history: tools called in order, handlers that returned and their characters, handlers that threw and values that did not serialise while stdin was open |
| Settlement.RunRecords | src/rpc-protocol.ts:243-260 | over every run stdout and stderr are all that was written, in order, and the recorded exit of an unsettled run is the last one |
| ProtocolClass.RpcProtocol.SettleOnce | src/rpc-protocol.ts:345-359 | the latch: the first settlement reaches promise and caller, later ones change nothing |
| ProtocolClass.RpcProtocol.AppendToStdout | src/rpc-protocol.ts:337-343 | printed text is appended, with no special case left for empty text |
| ProtocolClass.RpcProtocol.HandleToolCall | src/rpc-protocol.ts:455-467 | counting, naming and starting a handler refine the protocol step, with the branch where the callback throws |
| ProtocolClass.RpcProtocol.HandleLine | src/rpc-protocol.ts:388-453 | every kind of frame has exactly the effect of the protocol step on all fields |
| ProtocolClass.RpcProtocol.HandleStdoutClose | src/rpc-protocol.ts:230-242 | the close queues one check unless already settled |
| ProtocolClass.RpcProtocol.HandleProcessEnd | src/rpc-protocol.ts:246-260 | exit and close record the status, and only while unsettled |
| ProtocolClass.RpcProtocol.HandleProcessError | src/rpc-protocol.ts:262-264 | a transport error refines the protocol step and settles the promise with its message, unless it was settled |
| ProtocolClass.RpcProtocol.HandleAbort | src/rpc-protocol.ts:266-275 | an abort refines the protocol step and settles the promise as aborted, unless it was settled |
| ProtocolClass.RpcProtocol.HandleTimeout | src/rpc-protocol.ts:498-508 | a timeout refines the protocol step: the caller has an answer, which is the timeout exactly if it had none before |
| ProtocolClass.RpcProtocol.HandleToolEnd | src/rpc-protocol.ts:466-485 | the end of a handler refines the protocol step and touches only metrics, handlers and pipe |
| ProtocolClass.RpcProtocol.EndToolCall | src/rpc-protocol.ts:466-485 | count, send, and count again in the catch clause when sending throws |
| ProtocolClass.RpcProtocol.BuildExecutionDetails | src/rpc-protocol.ts:362-374 | a snapshot holds the counters of the moment and a fresh copy of the array of names, which the object itself does not keep |
| ProtocolClass.RpcProtocol.HandleEvent | src/rpc-protocol.ts:207-276 | every event goes to its handler and has the effect of the protocol step, and no array in a snapshot handed out before changes, though calls push names in place |
| ProtocolClass.RpcProtocol.HandleEvents | src/rpc-protocol.ts:362-374 | over any run of events the object follows the protocol, and every snapshot handed out before keeps its counters and names to the end |
| ProtocolClass.RpcProtocol.CountToolCall | src/rpc-protocol.ts:456-457 | the count goes up and the name is pushed onto the shared array |
| ProtocolClass.RpcProtocol.RunNextMicrotask | src/rpc-protocol.ts:235-241 | the queued close check settles only what is still open |
| ProtocolClass.RpcProtocol.DrainMicrotasks | src/rpc-protocol.ts:225-242 | running microtasks until none is left terminates in the drained state |
| Client.CallIdInjective | src/python-runtime/rpc.py:76-77 | different calls never share an id |
| Client.StartCallFresh | src/python-runtime/rpc.py:75-91 | a new call's id is not pending, and registering it keeps the map consistent |
| Client.ResponseReachesItsCall | src/python-runtime/rpc.py:61-73 | a response settles the future of the call it names, if still waiting, and no other: it resolves it with the value if there is no error, fails it with the payload of a dict, and with the text of any other error |
| Client.OtherEndings | src/python-runtime/rpc.py:30-34 | a cancelled call ends its own waiting future only, a failing reader every registered waiting one, with its error |
| Client.LateReplyResolvesNobody | src/python-runtime/rpc.py:93-98 | a reply to a call that was settled, cancelled or forgotten changes no future |
| Client.FuturesSettleOnce | src/python-runtime/rpc.py:61-98 | no operation of the client changes a settled future |
| Client.Future.Finish | src/python-runtime/rpc.py:31-33 | a future takes the first outcome and keeps it |
| Client.Future.Answer | src/python-runtime/rpc.py:65-72 | a waiting future object is settled by the error member of the reply, and by the value only without one |
| Client.RpcClient.StartRpc | src/python-runtime/rpc.py:75-91 | id, request and registration happen in one step, and the map holds the returned future |
| Client.RpcClient.HandleReply | src/python-runtime/rpc.py:61-73 | the future object is settled in place by the members of the reply and its entry removed, refining the response step |
| Client.RpcClient.HandleLine | src/python-runtime/rpc.py:43-59 | one turn of the reader loop, with the line that breaks the reader |
| Client.RpcClient.Cancel | src/python-runtime/rpc.py:93-95 | a timeout cancels the waiting future object only |
| Client.RpcClient.Forget | src/python-runtime/rpc.py:95-98 | the entry of a timed-out call leaves the map |
| Client.RpcClient.FailPendingCalls | src/python-runtime/rpc.py:30-34 | every pending future that still waits fails with the error, the settled ones keep their outcome, and the map is empty |
| Bridge.RunKeepsInv | src/python-runtime/rpc.py:61-98 | every interleaving of both sides and both pipes keeps the invariant that ties frames, handlers, ids and futures together |
| Bridge.RepliesReachTheirOwnCalls | src/python-runtime/rpc.py:61-98 | over every interleaving a future holds a value only if Node wrote that value for the handler of its number, and a tool error only if Node wrote that error; a waiting one has no reply read yet, each call is answered at most once, and each running handler runs its own call |
| Bridge.FuturesTellTheirCalls | src/rpc-protocol.ts:466-485 | over every interleaving a future holds a value only if the handler of its number returned that value and it serialised, a tool error only if that handler threw it or failed to serialise with it, a reader error only if the reader failed with it, and is cancelled only by its own timeout |
| Bridge.HandlersRunWhatWasAsked | src/python-runtime/rpc.py:75-91 | over every interleaving the call behind future n is the n-th that Python asked for, with its tool and parameters, and handler n runs that call |
| Bridge.FuturesSettleOnce | src/python-runtime/rpc.py:61-98 | over every interleaving a settled future never changes again |
| Compaction.CompactFitOutputPreview | src/python-runtime/runtime.py:717-786 | the recursive walk with its mutable statistics computes the preview and report that the lemmas below and those of `CompactionPaths` describe |
| Compaction.CompactContainer | src/python-runtime/runtime.py:747-760 | one visited container: children compacted, the rest counted as omitted |
| Compaction.CompactPrefix | src/python-runtime/runtime.py:770-776 | the loop over the first children merges the four statistics of all of them |
| Compaction.Faithful | src/python-runtime/runtime.py:717-786 | "not truncated" holds exactly for the values within the limits, which come back equal with no omission and no depth limiting |
| Compaction.PreviewUnchanged | src/python-runtime/runtime.py:717-786 | exactly which values equal their preview |
| Compaction.TruncatedMeansChanged | src/python-runtime/runtime.py:733-738 | for a budget of at least 4, "truncated" holds exactly when the preview differs |
| Compaction.TruncatedButUnchanged | src/python-runtime/runtime.py:736-738 | in general, exactly the values for which the flag is raised over an unchanged preview |
| Compaction.TruncatedButUnchangedExample | src/python-runtime/runtime.py:736-738 | such a value: `a...` under a budget of 3 |
| Compaction.PreviewBounded | src/python-runtime/runtime.py:740-782 | every preview nests at most max_depth deep, with at most max_items children anywhere |
| Compaction.Accounting | src/python-runtime/runtime.py:756-781 | children kept plus children omitted are the children of the containers visited, for items and for keys |
| Compaction.CompactIdempotent | src/python-runtime/runtime.py:741-767 | compacting a preview again changes nothing exactly when every placeholder fits the budget |
| Compaction.PlaceholderCutExample | src/python-runtime/runtime.py:741-745 | a placeholder over the budget, which a second compaction cuts |
| CompactionPaths.PreviewOfList | src/python-runtime/runtime.py:747-760 | a list above depth zero keeps its first max_items items, each compacted in its place |
| CompactionPaths.PreviewOfDict | src/python-runtime/runtime.py:769-776 | a dict above depth zero keeps its first max_items keys, each with its own value compacted |
| CompactionPaths.PathsOfPreview | src/python-runtime/runtime.py:717-786 | every path of positions and keys in a preview is a path of the value, and at its end stands the same scalar, a string cut to a prefix and dots, a container cut to its first children, or at the depth limit a placeholder that names the kind and reads back the number of children there |
| CompactionPaths.PathsKept | src/python-runtime/runtime.py:747-776 | a path of the value within the depth limit that takes only first children is kept |
| CompactionPaths.DepthLimitedMeans | src/python-runtime/runtime.py:740-767 | the depth statistic is raised exactly when a path that the preview keeps ends in a container at the depth limit |
| FitOutput.LimitsClamped | src/python-runtime/runtime.py:676-704 | limits are accepted exactly when absent or positive ints; they are positive and never exceed the session's budget |
| FitOutput.LimitsChosen | src/python-runtime/runtime.py:676-704 | each limit is the argument or its default, the characters also capped by the session, and a refusal names the first bad argument |
| FitOutput.MeasureText | src/python-runtime/runtime.py:811-822 | the printed size of a result with a text preview is a frame plus the escaped text plus the digits of its length |
| FitOutput.OnePassSuffices | src/python-runtime/runtime.py:817-822 | one pass of the shrink loop makes the result fit or leaves a preview of four characters |
| FitOutput.FitResultToCharBudget | src/python-runtime/runtime.py:807-835 | the loop terminates, its body runs at most once, and the result is the specified one |
| FitOutput.BudgetRespected | src/python-runtime/runtime.py:824-835 | the result prints within the budget or is the constant last-resort dict |
| FitOutput.BestThatFits | src/python-runtime/runtime.py:807-835 | the result as it is, a text preview, the minimal dict and the last resort are tried in this order: each is given exactly when it fits and those before it do not, a text preview exactly when the shortest one would fit |
| FitOutput.ShrunkLength | src/python-runtime/runtime.py:817-822 | a pass makes the text shorter by the overflow, by five characters at least, and never shorter than four |
| FitOutput.FitOutput | src/python-runtime/runtime.py:1214-1257 | the whole helper: bad limits raise, good ones give the fitted result |
| FitOutput.NotTruncatedIsWhole | src/python-runtime/runtime.py:1252-1257 | a result that does not say "truncated" carries the value itself and is within the budget |
| FitOutput.LastResortSize | src/python-runtime/runtime.py:835 | the last-resort dict prints in 47 characters |
| FitOutput.OthersAreLonger | src/python-runtime/runtime.py:827-835 | every other result prints longer than that |
| FitReading.ResultSays | src/python-runtime/runtime.py:1235-1255 | the members of a full result stand under their keys |
| FitReading.SmallResultsSay | src/python-runtime/runtime.py:827-835 | the members of the two small results stand under their keys |
| FitReading.FittedSpeaksTruly | src/python-runtime/runtime.py:789-835 | what a full result says about the value is true: its kind, limits, printed length, what is kept and omitted, the length of the preview, which is the compaction or its compact print cut to a prefix; the flag is down exactly for a value shown whole |
| FitReading.FittedReadsBack | src/python-runtime/runtime.py:686-687 | the printed result reads back as the dict that was returned |
| FitReading.WholeTextReadsBack | src/python-runtime/runtime.py:811 | a text preview that was not cut reads back as the compacted value |
| JsonText.DumpsLength | src/python-runtime/runtime.py:686-687 | the structural size function is the length of the indented printout, for every value |
| JsonText.CompactLength | src/python-runtime/runtime.py:811 | the same for the compact print: the size of its tokens, one comma between children, no white space |
| JsonRoundTrip.ReadEscaped | src/python-runtime/runtime.py:811 | an escaped text reads back as the text, with the reader's own table of escapes |
| JsonRoundTrip.PrintReadsBack | src/python-runtime/runtime.py:686-687 | for a reader written after RFC 8259 the print of a value, in both styles and at any indentation, reads back as the value up to the order of members, for distinct keys and floats that print as numerals |
| JsonValidity.JsonExactlyForNumbers | src/python-runtime/runtime.py:686-687 | over all values with distinct keys that Python can print, the print is a JSON text, and reads back as the value, exactly when no float in it is NaN or infinite |
| JsonText.EscapeConcat | src/python-runtime/runtime.py:811-821 | escaping distributes over concatenation, the fact behind cutting text by a count |
| KeyOrder.SortSorts | src/python-runtime/runtime.py:686-687 | printed members stand in strictly increasing key order, none lost or added |
| KeyOrder.KeyOrderMeans | src/python-runtime/runtime.py:686-687 | keys are ordered by the first code point in which they differ, a proper start coming first |
| KeyOrder.PrintIgnoresInsertionOrder | src/python-runtime/runtime.py:686-687 | two dicts with the same members print the same, whatever the order of insertion |
| Text.UnitsLength | src/utils.ts:125 | JavaScript's length exceeds Python's by one for each code point outside the BMP |
| Text.UnitsDecode | src/utils.ts:125 | the code units of a text decode to the text |
| Text.SpacesDiffer | src/tool-adapters.ts:94 | exactly the characters on which the two ideas of white space part |
| Truncation.TruncateOutput | src/utils.ts:123-154 | the loop of four attempts with its early exits gives the closed form, and an over-long output is cut to the limit exactly |
| Truncation.GuessesSettle | src/utils.ts:139-150 | from the second guess on, the budget is stable or alternates between two neighbours, the upper one a power of ten |
| Truncation.ExactLength | src/utils.ts:123-154 | an output is returned unchanged exactly when within the limit, and otherwise has the limit's length |
| Truncation.NoticeAccuracy | src/utils.ts:129-153 | behind a prefix of the output stands a text in which a reader finds the printed count and the length of the output; the count is exact exactly when a self-consistent count exists, and one more exactly for the limits of a two-cycle |
| Truncation.NoticeReads | src/utils.ts:129-130 | the text of a notice reads as its count and its total, in this order |
| Truncation.TwoCycleExactly | src/utils.ts:132-150 | the count is one too high exactly when the limit is 52 plus the digits of the total plus a power of ten plus its exponent |
| Truncation.OneTooHighExample | src/utils.ts:123-154 | such a limit: 66 on an output of 100 units |
| Truncation.NoCountIsTrue | src/utils.ts:139-150 | when the printed count is off, no count at all would be true |
| Truncation.NoRoomForNotice | src/utils.ts:135-137 | all outputs of a length are cut to a bare prefix exactly when the first notice fills the limit |
| EndToEnd.SmallBudget | src/python-runtime/runtime.py:827-835 | below 47 characters every value is reduced to the last-resort dict |
| Bmp.DumpsBmp | src/python-runtime/runtime.py:686-687 | a value prints as BMP text exactly when all its strings, keys and float texts are BMP text, in both styles |
| Bmp.FittedBmp | src/python-runtime/runtime.py:1214-1257 | compacting, cutting and wrapping add nothing outside the BMP |
| EndToEnd.FittedPassesUncut | src/code-executor.ts:81-86 | under any limits within the session, a BMP value survives the truncation exactly from 47 characters on, and any value exactly when, besides, its printout counted in UTF-16 units fits |
| EndToEnd.FitOutputArrivesWhole | src/python-runtime/runtime.py:1565-1571 | with the limits the helper derives, a BMP value arrives whole exactly for session limits of at least 47 |
| EndToEnd.NeverCutExactlyForBmp | src/python-runtime/runtime.py:1214-1257 | arriving whole under all arguments and all sessions of at least 47 holds for exactly the BMP values |
| EndToEnd.AstralIsCut | src/utils.ts:123-127 | for every other value there is a session limit at which Python returns it whole and within budget and Node cuts it |
| EndToEnd.AstralExample | src/utils.ts:123-127 | such a value: a string of one emoji |
| StdoutFraming.StdoutProxy.Write | src/python-runtime/runtime.py:32-40 | a write emits the complete lines of buffer plus text and keeps the rest |
| StdoutFraming.StdoutProxy.Flush | src/python-runtime/runtime.py:42-45 | a flush emits the buffer if it holds anything |
| StdoutFraming.LinesConcat | src/python-runtime/runtime.py:36-39 | text in two pieces gives the same frames as in one |
| StdoutFraming.FramingTransparent | src/python-runtime/runtime.py:28-45 | for any writes and flushes, frames plus buffer are the text written, and no newline is held back |
| StdoutFraming.FramesOfWrites | src/python-runtime/runtime.py:28-45 | without flushes even the frames do not depend on the chunking |
| StdoutFraming.NodeGlues | src/rpc-protocol.ts:337-343 | over any run of events that settle nothing, Node's stdout grows by the concatenation of the stdout frames among them |
| StdoutFraming.OutputDependsOnTextOnly | src/rpc-protocol.ts:418-426 | the settled output is a function of the text printed and the returned output, not of writes, flushes, or the progress frames, tool calls and other events in between |
| Gather.EffectiveLimit | src/python-runtime/runtime.py:911-912 | a positive limit counts, absent and zero mean the default, negative means one |
| Gather.AtMostLimitInside | src/python-runtime/runtime.py:911-918 | under no schedule are more than limit coroutines inside the semaphore, and no permit is lost |
| Gather.SchedulesEnd | src/python-runtime/runtime.py:914-918 | every schedule ends after exactly two events per coroutine and some coroutine can move until then |
| Gather.ResultsInInputOrder | src/python-runtime/runtime.py:918 | results land in input order under every schedule, and gathering raises exactly when a coroutine did |
| Gather.FirstErrorWins | src/python-runtime/runtime.py:918 | the error that gathering raises is that of the first coroutine to fail |
| Gather.ScheduleIndependent | src/python-runtime/runtime.py:911-918 | when nothing raises, the result does not depend on limit or schedule |
| Orchestration.BuildEnvelope | src/python-runtime/runtime.py:1097-1108 | the counting loop gives the specified envelope, in which successes and failures add up to the records |
| Orchestration.RecordSays | src/python-runtime/runtime.py:1067-1092 | a record of a call that raised, or of a read or grep that does not normalise, holds no value and the error; any other holds the result, normalised for those two tools alone, and the error found in it |
| Orchestration.CollectModeInOrder | src/python-runtime/runtime.py:1067-1108 | in collect mode, under every schedule and limit, the envelope holds in order the record each call comes to by itself, counts the calls that succeed, and nothing is raised |
| Orchestration.NormalizeBatch | src/python-runtime/runtime.py:1063-1066 | the list comprehension of raise mode, which the first normaliser to raise ends |
| Orchestration.NormalizeAllInOrder | src/python-runtime/runtime.py:1051-1066 | raise mode gives every result normalised in its place, or the error of the first that does not normalise |
| Orchestration.ReduceResults | src/python-runtime/runtime.py:1204-1212 | the accumulator loop, with the index at which a reducer fails |
| Orchestration.FoldStops | src/python-runtime/runtime.py:1204-1212 | a failing fold names the first index at which the reducer fails, with the error it gave there |
| Orchestration.ReduceToolIsLeftFold | src/python-runtime/runtime.py:1194-1212 | when no call and no reducer raises, reduce_tool is the left fold over the normalised values in input order under every limit and schedule, or raises the first normaliser's error |
| Orchestration.FirstSuccess | src/python-runtime/runtime.py:1181-1192 | calls stop at the first success, and all failures are listed in order when there is none |
| Paths.SplitJoin | src/python-runtime/runtime.py:88-96 | splitting at slashes undoes joining |
| Paths.NormalForm | src/python-runtime/runtime.py:92-93 | normalised absolute paths are rendered from clean components, and normalising is idempotent |
| Paths.NormJoin | src/python-runtime/runtime.py:73-77 | joining a relative text below a root and normalising appends its components |
| Paths.LeadingSlashesMean | src/python-runtime/runtime.py:92-93 | exactly two leading slashes are kept apart, more count as one |
| Paths.ComponentsMean | src/python-runtime/runtime.py:108 | a dot stays, two dots go up and stop at the root, a name goes down |
| Paths.RelPathLeadsBack | src/python-runtime/runtime.py:95 | joining a start with the relative path from it leads to the path again, for any two absolute paths |
| Workspace.RelativizeRoundTrip | src/python-runtime/runtime.py:68-96 | relativising and translating back gives the normalised path, for every path under a root other than a bare / or //; for those, exactly when the leading slashes agree |
| Workspace.RelativizeIdempotent | src/python-runtime/runtime.py:88-96 | relativising twice is relativising once, for any text at all |
| Workspace.TranslatedIsNormal | src/python-runtime/runtime.py:68-77 | every translated path is absolute and normal |
| Workspace.AbsolutizedMeans | src/python-runtime/runtime.py:105-108 | a relative text found below a base is that text below the base with its dots resolved, an absolute one is translated |
| Workspace.FormattedLeadsBack | src/python-runtime/runtime.py:111-118 | a shown path is the translated one, or if relative the way down from the chosen root, which leads from the root to the path again |
| Workspace.SameSuffixSameText | src/python-runtime/runtime.py:88-96 | the same place below the runtime root and below the host root relativises to the same text, exactly unless the host root is bare and the place is not the root itself |
| Workspace.OverlapMovesTwice | src/python-runtime/runtime.py:68-77 | for any overlapping roots there is a path that a second translation moves again |
| Workspace.DoubleTranslationHarmless | src/python-runtime/runtime.py:105-118 | for any two roots, bare ones included, translating twice is harmless on all absolute paths exactly when the roots do not overlap |
| Workspace.DiscoveryTranslatesOnce | src/python-runtime/runtime.py:953-957 | discovery of absolute paths amounts to one translation exactly for such roots |
| Workspace.DiscoveryRoundTrip | src/python-runtime/runtime.py:950-957 | with roots that do not overlap, what is found as a relative text below a base under the host root is shown as that text relative to the base |
| Grep.ParseGrepMatches | src/tool-adapters.ts:56-80 | the loop over the lines computes the specified records |
| Grep.ParseLineOf | src/tool-adapters.ts:63-69 | a printed line parses to a record exactly when no earlier number stands in the path and path and text are the record's |
| Grep.TrimPrinted | src/tool-adapters.ts:57 | trimming a printed output trims the first path and the last text and nothing else |
| Grep.LineMeans | src/tool-adapters.ts:63-76 | a line with any mix of separators and no earlier number in its path is a match exactly when both are colons, and its text is the tail less one leading white space |
| Grep.SplitCrLf | src/tool-adapters.ts:63 | a carriage return before a line feed belongs to the line break |
| Grep.RoundTrip | src/tool-adapters.ts:56-80 | printing and parsing gives the list back exactly for the printable lists |
| Handles.KeyInjective | src/tool-adapters.ts:93-129 | the string keys never confuse two handles, of one kind or of both |
| HandlePlaces.WalkFindsNamed | src/tool-adapters.ts:131-154 | the walk finds exactly the handles that some object at some path of the value names |
| HandlePlaces.WalkOrder | src/tool-adapters.ts:131-154 | items one after the other, an object's response handle before its file handle and both before those of its members |
| Handles.Collector.Push | src/tool-adapters.ts:93-129 | a handle is trimmed, and pushed unless empty or already seen |
| Handles.Collector.Collect | src/tool-adapters.ts:131-154 | the recursive walk with shared array and set pushes the handles of the preorder list |
| Handles.TrimmedKeepsKind | src/tool-adapters.ts:93-129 | trimming keeps the kind of a handle and trims its text |
| Handles.PushAllIsDedup | src/python-runtime/runtime.py:198-242 | the result has no duplicates and exactly the non-empty trimmed handles |
| Handles.CollectedPrefix | src/python-runtime/runtime.py:224-242 | what comes first in the walk comes first in the result: first occurrences decide the order |
| Handles.TrimsAgree | src/tool-adapters.ts:94 | exactly the strings on which trim and strip agree |
| Handles.TypeScriptAndPythonAgree | src/python-runtime/runtime.py:198-242 | the two collectors agree on a value exactly when trim and strip agree on the ends of each of its handles |
| Handles.DisagreementExample | src/tool-adapters.ts:94 | a value on which they differ |
| ToolRegistry.StoredPtcStable | src/tool-registry.ts:27-43 | storing metadata keeps its meaning, and storing it again changes nothing |
| ToolRegistry.PtcDefaults | src/contracts/tool-types.ts:27-40 | a tool that says nothing is callable when enabled, mutating unless policy or readOnly say otherwise |
| ToolRegistry.StoredKeeps | src/tool-registry.ts:27-43 | storing fills in what was left out and keeps what was said |
| ToolRegistry.Registry.UpsertTool | src/tool-registry.ts:247-261 | an upsert owns the name, replaces the tool and touches nothing else |
| ToolRegistry.Registry.RemoveTool | src/tool-registry.ts:263-266 | a removal owns the name even if it was never registered, and says whether it was |
| ToolRegistry.Registry.IngestExtensionExecutors | src/tool-registry.ts:146-165 | the loop over an emission, skipping entries without name or executor |
| ToolRegistry.Registry.BuildToolMap | src/tool-registry.ts:316-387 | the four overlay loops give each name what the pointwise rule gives it |
| ToolRegistry.RemovedByHistory | src/tool-registry.ts:247-266 | after any history the tombstones are the names whose last upsert or removal was a removal |
| ToolRegistry.CustomIsLastUpsert | src/tool-registry.ts:247-261 | after any history a custom tool is what its last upsert said, unless removed since |
| ToolRegistry.LastEmissionCounts | src/tool-registry.ts:146-165 | the bridge entry of a name is the last emitted with an executor, and other names keep theirs |
| ToolRegistry.PrecedenceRule | src/tool-registry.ts:345-384 | after any history, executor and presence follow the order active Pi, custom, bridge, builtin, failing stub |
| ToolRegistry.DescriptionRule | src/tool-registry.ts:316-384 | where Pi applies it gives description and parameters, and its metadata and source count before the tool's own; elsewhere the tool is the custom one, or the builtin with the executor and metadata of the bridge |
| ToolRegistry.RemovedNeverReappears | src/tool-registry.ts:346-348 | a removed custom tool without builtin or bridge entry stays gone, whatever Pi lists |
| ToolRegistry.BuiltinSourceKept | src/tool-registry.ts:327-371 | a builtin's name counts as builtin under every bridge emission and Pi override, until a custom tool takes it |
| CallablePolicy.AutoRoutableNames | src/tool-registry.ts:437-444 | routing takes out exactly the callable tools that are also open to direct calls, and never code_execution itself |
| CallablePolicy.CallersMean | src/tool-registry.ts:64-83 | callers are those named, if any; otherwise direct always, and code for builtins and enabled extensions, but not for code_execution |
| CallablePolicy.ReportAllowlistGaps | src/tool-registry.ts:176-245 | the loop lists exactly the allowlisted names that are not callable, in order, each with its diagnosis |
| CallablePolicy.CallableOrGap | src/tool-registry.ts:192-195 | every allowlisted name is callable or a gap, never both, and listed once |
| CallablePolicy.CascadeMirrorsFilter | src/tool-registry.ts:393-430 | an allowlisted name passes the filter exactly when the cascade ends in its catch-all, or at the mutation check for a trusted tool |
| CallablePolicy.CatchAllIsCodeExecution | src/tool-registry.ts:236 | the catch-all reason is only ever given to code_execution |
| CallablePolicy.CascadeAloneWouldMisreport | src/tool-registry.ts:227-230 | a callable tool that the cascade alone would call mutating |
| CallablePolicy.ReasonIsTheCause | src/tool-registry.ts:196-234 | the setting named by a reason moves the diagnosis on, and for the last two reasons makes the tool callable |
| CallablePolicy.ReasonsAreTrue | src/tool-registry.ts:196-234 | what each reason says about the tool is so |
| CallablePolicy.MetadataIsTheCause | src/tool-registry.ts:196-234 | the two reasons that no setting can help are cured by the metadata they name |
| CallablePolicy.LooserKeepsCallable | src/tool-registry.ts:398-430 | loosening any setting keeps every callable tool callable |
| CallablePolicy.DroppingTheAllowlist | src/tool-registry.ts:405-415 | dropping the allowlist loses exactly the opt-in tools |
| CallablePolicy.ResolvedClassified | src/tool-registry.ts:45-52 | after any history and Pi list, the read-only flag of every tool agrees with the metadata beside it |
| CallablePolicy.ReadOnlyMode | src/tool-registry.ts:416-428 | with mutations disabled, after any history a callable tool is a read-only builtin or a trusted extension whose policy says read-only |
| Session.InjectionsNeverExceedRecords | src/index.ts:319-327 | over any event sequence injected messages never exceed armed records, nor these the records created, and each record's fields agree, a failure class being set exactly when recovery was attempted |
| Session.OneInjectionPerRequest | src/index.ts:123-130 | a request begun with harmless leftovers injects one message exactly when a failure armed recovery and the context was asked for afterwards, and otherwise none |
| Session.AtMostOneInjection | src/index.ts:100-148 | for prompts that may be retried, at most one message over all that can happen in the request holds exactly when no leftover execution can still recover |
| Session.MutationPromptsAreNotRetried | src/index.ts:301-310 | no message is injected or left pending under a mutation prompt, even with older executions in flight |
| Session.LeftoverExecutionAddsOne | src/index.ts:100-131 | a leftover that can recover brings the request after its own a second message, by a run given |
| Session.RestoresExactly | src/index.ts:233-258 | the end of the request restores the tool list exactly when no second routing changed a routed list |
| Session.SecondRoutingLosesTool | src/index.ts:226-237 | two routings before an end lose the tool that the first one took away |
| Session.OneRequestRestores | src/index.ts:206-258 | a request with one start restores the list, whatever was routed away |
| Session.TerminalTells | src/recovery-state.ts:76-82 | the terminal state of a record is written by the ends of its own executions alone: success, or failure after recovery exactly when recovery had been attempted |
| Session.RecoveryTells | src/recovery-state.ts:55-74 | recovery is attempted exactly by the first classified Python failure of an own execution, when allowed, under settings that turn it on and after an attempt |
| Session.RecordsBegin | src/index.ts:301-317 | each request begins with a record of its own, an execution outside of one gets one, and the end of a request clears all |
| Session.RecoveryOff | src/recovery-state.ts:55-60 | no message is ever injected exactly under settings that turn recovery off |
| Session.RouteMeans | src/index.ts:226-230 | routing keeps the order of the tools that stay and puts code_execution last unless it is among them |
| SessionClass.RecoveryState.NoteCodeExecutionAttempt | src/recovery-state.ts:47-53 | an attempt is counted and the first path is kept |
| SessionClass.RecoveryState.ArmAutomaticRecovery | src/recovery-state.ts:55-74 | recovery is armed at most once per record and only after an attempt |
| SessionClass.RecoveryState.NoteCodeExecutionFailure | src/recovery-state.ts:80-82 | the terminal state tells whether recovery had been attempted |
| SessionClass.PtcSession.GetRequestRecoveryState | src/index.ts:65-71 | the current record object is shared, and created only when there is none |
| SessionClass.PtcSession.HandleBeforeAgentStart | src/index.ts:301-317 | a request begins with a fresh record, nothing pending, and routing applied |
| SessionClass.PtcSession.ApplyAutoRouting | src/index.ts:206-237 | the list is saved and replaced only when routing changes it |
| SessionClass.PtcSession.StartExecution | src/index.ts:100-102 | an execution captures the record object current at its start |
| SessionClass.PtcSession.ExecutionSucceeded | src/index.ts:114 | success is noted in the captured record, whichever request is current |
| SessionClass.PtcSession.CatchFailure | src/index.ts:123-146 | arming and failure go to the captured record, permission and prompt to the session |
| SessionClass.PtcSession.HandleContext | src/index.ts:319-327 | a pending message is injected once |
| SessionClass.PtcSession.HandleAgentEnd | src/index.ts:329-334 | the end restores the saved list and clears the request |

## Left out

- Processes, signals, Docker, file watching, wall-clock time and token estimates: exits, closes, aborts, timeouts and cancellations are events that may happen at any point.
- What a tool does: its outcome, its estimated size and whether its value serialises are parameters of the event that ends its handler.
- Frame syntax: validation and JSON parsing of a line are one event, a frame or a malformed line, with the text of error messages and the scan of stderr for Python failures left abstract. User code that writes protocol frames of its own is not modelled.
- A Python call whose parameters do not serialise raises before it is registered; the model starts after that point.
- asyncio: `gather` and the semaphore are a step system with permits; cancelling `gather` itself is not modelled, and the error summary, the tool-error classifier and the read and grep normalisers are parameters.
- `read_many` and `read_tree` add only envelopes over `gather_limit`; report fields, tables, `ptc.run_tests` and signature generation are branch-by-branch code.
- JSON: values are those that already passed the JSON clone, floats are their printed form, NaN and the infinities included; what the clone rejects is not modelled. The reader exists for the round trip and does not pair escaped surrogates, which the printer never writes.
- Value identity: objects that the original shares by reference (tool entries, JSON values) are values here, except futures, recovery records and the arrays of tool names, whose sharing is modelled on the heap.
- The update callback is taken to be present; without one, the same steps happen and no snapshot is handed out.
- Lone surrogates, which a Python string can hold and which count one on both sides, are not modelled.
- JavaScript enumeration order: the members of a value are listed in the order the walk sees them, so integer-like keys are assumed to stand where JavaScript puts them.
- Map order of the tool map and of the callable list, and the check of Python helper names that can reject the whole list.
- Grep.ParseGrepMatches: line numbers are exact; JavaScript rounds above 2^53. The parsed text is characters, not UTF-16 units, which none of the classes in the expression tell apart.
- Truncation.NoticeAccuracy: assumes an output shorter than 2^53 units, as every JavaScript string is.
- Orchestration.FirstSuccess: the calls' outcomes are given in advance, one per call, since no call sees another's.
- ToolRegistry.PrecedenceRule: assumes that Pi lists each name once, as Pi does.
- Session.RestoresExactly: assumes that nobody else sets the tool list during the request; what a later setter wrote is overwritten by the restore.
- Routing and recovery heuristics on prompts, tracebacks and code are booleans and classes carried by the events; the system prompt text that routing appends, registration at session start, telemetry snapshots and rendering are not modelled.
