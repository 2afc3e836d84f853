# Verification

A model, in Dafny, of the stateful core of a service that connects chat
platforms to a coding assistant behind an OpenAI-style upstream, with proofs of
what its state machines keep. Everything runs on one event loop, so each
stretch of the source without an await is one atomic step.

- `ThinkParser`, `HeuristicParser`, `ToolPatterns`, `HeuristicText`,
  `HeuristicCalls`, `CutOffCalls`, `CallsInText`, `ManyCalls`: the two incremental
  parsers, as classes proved against a one-pass scan and a state machine, and what
  the second makes of its patterns, of text without calls, of calls, of calls that
  are cut off, of the text around them, and of several calls.
- `Protocol`, `Sse`, `ToolCalls`, `TextStream`, `AnswersShown`, `CallBlocks`,
  `ShownText`, `Translator`: the streaming translator. `Protocol` has the event automaton and
  the definition, position by position, that it is equivalent to; `Sse` is the
  builder with its block manager; `ToolCalls` says what the deltas of each native
  tool call amount to; `TextStream` says what content amounts to, block by block,
  `AnswersShown` and `CallBlocks` what that is for answers and calls, and
  `ShownText` what text is shown among anything else; `Translator` is the loop.
- `TreeQueue`, `TreeQueueProofs`, `TreeScheduler`: the message scheduler of a
  conversation tree as a state machine, its invariant over all runs with the
  exact condition for each step, and the class that performs the steps.
- `TreeData`, `Repository`: the tree of messages and the index over all trees.
- `SlidingWindow`, `SendQueue`: the three rate limiters against the full
  history of grants, and the compacting send queue against a log of requests.
- `Converter`, `Transcript`, `CliSessions`, `Automation`: the printer that the
  think parser undoes, bounded rendering, the session id maps, and the daily
  automation worker.
- `Text`: the string searches that the rest uses.

Classes stand for the source's objects and are proved against functions and
state-machine steps; fields marked ghost are history that only the proofs use.

## Where the code does not do what it says

- The tool-call filter claims not to lose text. It loses text without a call, text
  before a call and text after a call; for each the exact condition is proved,
  for every way of cutting it:
  - it holds back what follows a bullet among the last 100 characters, and no
    flush releases that (`HeuristicText.BulletLostExactly`);
  - the same for an unfinished `<|` (`HeuristicText.TextLostExactly`,
    `KeptExactly`);
  - it looks for the header of a call anywhere after a bullet, and forgets what
    lies between: text before a call is lost from the first bullet on that is in
    the piece that completes the header or close before it
    (`CallsInText.TextBeforeCallExactly`, `BulletedLineLost`);
  - it waits for a tag to end: text after a call is lost if the part of it that
    comes first begins with `<` (`CallsInText.TextAfterCall`, `AngleTextHeld`).

  A short answer that begins with a bullet is shown as a blank
  (`AnswersShown.BulletAnswerBlank`). The last chunk of the think parser bypasses
  the filter (`TextStream.ShowRest`).
- Two calls in a row become one when the first closing tag of the second comes in
  one piece with its bullet: the parameters go to the first and the second header
  is shown (`ManyCalls.NextCallMerged`, `TwoCallsExactly`).
- A leaked sentinel is meant never to be shown. One that is cut in two is removed
  only if text comes before it in its first piece (`ToolPatterns.SentinelCutInTwo`
  has the exact condition).
- Text that comes in one chunk with the end of a call is shown before the tool
  (`CallBlocks.CallInTheMiddle`).
- A tool call written with white space between its tags is cut short when that
  white space arrives alone (`HeuristicCalls.LoneSpaceEndsCall`); otherwise it is
  recovered (`HeuristicCalls.CallRecoveredExactly`).
- The limiters promise the bound for any interval of the window's length. It
  holds for half-open intervals (`SlidingWindow.WindowBound`). For closed ones it
  holds exactly when no two grants, the limit apart, are exactly a window apart
  (`SlidingWindow.ClosedBoundExactly`; per grant `ClosedGrantExactly`), and the
  limiter grants such times (`SlidingWindow.ClosedWindowOverflows`).
- The scheduler leaves its invariant exactly in these situations
  (`TreeQueueProofs.StepKeepsExactly`): cancelling a task before its first run
  (`CancelledAtOnce`); removing a branch while a node of it is queued, which
  happens when that node is already completed or failed (`ClearedAfterFailure`)
  or was queued after the branch was cancelled (`QueuedBeforeRemoval`); enqueueing
  an id twice (`EnqueuedTwice`); enqueueing an id that has been removed from the
  tree (`EnqueuedAfterRemoval`); and enqueueing while the running task of a cancelled
  tree unwinds (`EnqueuedWhileUnwinding`), which is also the only way to two tasks
  at once (`TwoAtOnceExactly`). The lemmas named first are runs from the start;
  `EnqueueExactly`, `CancelNodeExactly`, `CancelBranchExactly` and
  `ClearBranchExactly` have the conditions.
- The daily automation is to run once a date. A candidate that was read before a
  run of it was recorded, and is queued after that run was released, runs again
  (`Automation.StaleCandidateRunsTwice`); `TickOnce` has the exact condition.
- A message whose id is already in the tree breaks the tree
  (`TreeData.ChildAddedExactly`), and one whose id another tree uses breaks the
  index over the trees (`Repository.TreeRepository.AddToTree`, `CreateTree`).
- The builder is said to handle a tool name that comes in fragments. The first
  fragment starts the block, so the block bears that one
  (`ToolCalls.NameInParts`; exactly when it does not matter: `BlockNameExactly`).
- Registering a real session id that is already in use loses a session without
  stopping it (`CliSessions.MoveTrackedExactly`).
- The object branch of the Task flush is dead: whatever is flushed does not
  parse to an object, so the flushed delta is always `{}`
  (`ToolCalls.BufferIsNoObject`). A content-only message whose only output is a tool
  call still gets a blank text block (`AnswersShown.ShowsCall`).
- The last branch of the bounded rendering is never reached
  (`Transcript.LastDoesNotFit`).

## Model

| member | source | states |
|---|---|---|
| ThinkParser.ParsePieces | providers/common/think_parser.py:44-165 | for every way of cutting any input, feeding the pieces and flushing yields the typed characters of one left-to-right scan of the whole input; no chunk is empty |
| ThinkParser.BlockIsScanned | providers/common/think_parser.py:67-154 | of text, a think block and more, the scan gives the text as text, what is between the tags as thinking, and goes on as text |
| ThinkParser.OrphanIsDropped | providers/common/think_parser.py:67-118 | a closing tag without an opening one is dropped and nothing else is |
| ThinkParser.OpenBlockIsScanned | providers/common/think_parser.py:120-165 | a block that is never closed is thinking to the end |
| ThinkParser.ThinkTagParser.Feed | providers/common/think_parser.py:44-65 | whatever follows, the chunks and what is left in the buffer continue the scan exactly where the input stands; at most 7 characters, a proper tag prefix, wait in the buffer; the loop ends |
| ThinkParser.ThinkTagParser.ParseOutsideThink | providers/common/think_parser.py:67-118 | one step outside a block agrees with the scan for every continuation (earliest tag, orphan closing tags dropped, cut tags kept), and shortens the buffer or leaves only a cut tag |
| ThinkParser.ThinkTagParser.ParseInsideThink | providers/common/think_parser.py:120-154 | the same inside a block, where only the closing tag counts |
| ThinkParser.ThinkTagParser.Flush | providers/common/think_parser.py:156-165 | what waits is handed out as the scan of it; the mode is kept |
| ThinkParser.ThinkTagParser.constructor | providers/common/think_parser.py:35-37 | a new parser waits for nothing and is outside a block |
| ThinkParser.PendingIsLastBracket | providers/common/think_parser.py:84-96 | a tag that the buffer ends in the middle of begins at its last `<`, so looking only there is enough |
| ThinkParser.TagInExtension | providers/common/think_parser.py:82-101 | a tag found once more input has come was already there, or begins as a cut tag at the end of the buffer |
| ThinkParser.ScanWaiting | providers/common/think_parser.py:156-165 | a cut tag that is never completed is ordinary content |
| ThinkParser.AdvancesTrans | providers/common/think_parser.py:44-65 | two feeds in a row are one feed of both pieces |
| ThinkParser.ReleasedIsUnique | providers/common/think_parser.py:44-65 | however the same content was cut, the parser has released the same typed characters: all that the content so far determines |
| HeuristicParser.HeuristicToolParser.Feed | providers/common/heuristic_tool_parser.py:67-196 | equals one run of the state machine over buffer and new text, and ends for every input by the measure (buffer length, state rank) |
| HeuristicParser.HeuristicToolParser.StepText | providers/common/heuristic_tool_parser.py:80-98 | one step in the TEXT state is the head of the remaining run and decreases the measure |
| HeuristicParser.HeuristicToolParser.StepMatching | providers/common/heuristic_tool_parser.py:100-125 | one step while a header is looked for: a match anywhere in the buffer, over 100 characters without one give up one character, else wait |
| HeuristicParser.HeuristicToolParser.StepParameters | providers/common/heuristic_tool_parser.py:127-194 | one step while parameters are read: closed parameters are taken, and the tool is handed out when its call is over |
| HeuristicParser.HeuristicToolParser.ConsumeClosedParams | providers/common/heuristic_tool_parser.py:136-150 | every closed parameter is taken off the buffer in order, later ones overwriting; text between them passes through |
| HeuristicParser.HeuristicToolParser.SplitIncompleteControlTokenTail | providers/common/heuristic_tool_parser.py:49-65 | an unfinished sentinel that is not at the head of the buffer is kept back |
| HeuristicParser.HeuristicToolParser.Flush | providers/common/heuristic_tool_parser.py:198-226 | only a call whose header was complete gives a tool, with an unclosed last parameter (`CutOffCalls`); any other buffer is not released |
| CutOffCalls.CutOffInValue | providers/common/heuristic_tool_parser.py:198-226 | a well-formed call whose last parameter is cut off before its closing tag, however the input is cut (not short): nothing of the parameter is released, and feed and flush together give exactly one tool, with the closed parameters and the stripped key mapped to the stripped value, over an earlier one |
| CutOffCalls.CutOffInHead | providers/common/heuristic_tool_parser.py:198-226 | cut off before the `>` after its key, the parameter is dropped, and the tool has the closed ones |
| HeuristicCalls.CallRecoveredExactly | providers/common/heuristic_tool_parser.py:67-226 | for every way of cutting a well-formed call, white space between its tags and bars included: exactly the one tool with stripped name and parameters comes out, and as text just that white space, if and only if no cut leaves white space alone after the last complete tag |
| HeuristicCalls.ParamMapAt | providers/common/heuristic_tool_parser.py:136-150 | the parameters of a tool: each key and value stripped, and of several with one key the last one counts |
| HeuristicCalls.AsWritten | providers/common/heuristic_tool_parser.py:32-35 | the text that such a call is, tag for tag |
| ManyCalls.CallsRecovered | providers/common/heuristic_tool_parser.py:67-226 | any number of calls, with text after each, in any pieces that cut none short and bring no closing tag together with the bullet of its call: one tool for each, in order, with its own parameters, and the text between them as text |
| ManyCalls.TwoCallsExactly | providers/common/heuristic_tool_parser.py:127-226 | two calls in a row, however cut (neither short): both are recovered if and only if the first closing tag of the second does not come in one piece with its bullet |
| ManyCalls.NextCallMerged | providers/common/heuristic_tool_parser.py:136-174 | if it does, one tool comes out, under the name of the first and with the parameters of both, and the header of the second is shown as text |
| HeuristicCalls.CallRecovered | providers/common/heuristic_tool_parser.py:67-226 | so a call without white space between its tags is recovered however it is cut: no text, no tool before the flush, and the flush gives the one tool |
| HeuristicCalls.LoneSpaceEndsCall | providers/common/heuristic_tool_parser.py:165-174 | white space that arrives alone after the header ends the call without any parameter and is released |
| HeuristicCalls.FeedPrefix | providers/common/heuristic_tool_parser.py:67-196 | fed any prefix of a call, the machine holds exactly the closed parameters so far and the unfinished rest, or white space alone has just ended the call |
| HeuristicCalls.FuncFound | providers/common/heuristic_tool_parser.py:32 | a complete header matches with exactly the name and length as written |
| ToolPatterns.FuncAtExactly | providers/common/heuristic_tool_parser.py:32 | a header matches at a place if and only if a bullet, white space, `<function=`, a non-empty name without `>` and `>` stand there |
| ToolPatterns.FuncSearchIs | providers/common/heuristic_tool_parser.py:103 | the search finds the leftmost header, or there is none |
| ToolPatterns.ParamAtExactly | providers/common/heuristic_tool_parser.py:33-35 | a closed parameter matches at a place if and only if an opening tag with a non-empty key stands there and a closing tag follows; its value ends at the first one |
| ToolPatterns.ParamSearchIs | providers/common/heuristic_tool_parser.py:136-139 | the search finds the leftmost closed parameter, or there is none |
| ToolPatterns.OpenParamExactly | providers/common/heuristic_tool_parser.py:204-213 | an unfinished parameter is the leftmost opening tag, with its key, and all that follows it as value |
| HeuristicCalls.ClosedParamFound | providers/common/heuristic_tool_parser.py:33-35 | a complete parameter at the head of the buffer is matched exactly as written |
| HeuristicCalls.CutParam | providers/common/heuristic_tool_parser.py:136-174 | no cut of a parameter looks like a complete one; it looks like the end of the call exactly when it is white space alone |
| HeuristicText.StripNothing | providers/common/heuristic_tool_parser.py:44-47 | without a bar no sentinel is stripped |
| ToolPatterns.ControlLenExactly | providers/common/heuristic_tool_parser.py:13 | a sentinel of a length stands at the head of a text if and only if it is `<|`, 1 to 80 characters without `|` and `>`, and `|>` |
| ToolPatterns.TokensGo | providers/common/heuristic_tool_parser.py:44-47 | from text without bars all finished sentinels are removed, wherever they stand, and nothing else |
| ToolPatterns.TokensNotFed | providers/common/heuristic_tool_parser.py:75-78 | text with finished sentinels is fed as the text without them |
| ToolPatterns.SentinelCutInTwo | providers/common/heuristic_tool_parser.py:49-98 | a sentinel in two pieces is removed if and only if text comes before it in the first, and the cut is after its `<|` and leaves no second `<|`; otherwise all of it is shown |
| HeuristicText.PlainTextPasses | providers/common/heuristic_tool_parser.py:75-98 | text without bullet and bar passes unchanged and leaves the machine as it was |
| HeuristicText.TextLostExactly | providers/common/heuristic_tool_parser.py:49-125 | text without a header or a finished sentinel, in any pieces: no tool comes out, all text is released in order but for what is kept back after the last piece, and no flush releases that, so text is lost if and only if something is kept back then |
| HeuristicText.KeptExactly | providers/common/heuristic_tool_parser.py:49-125 | nothing of a piece is kept back if and only if no bullet is among its last 100 characters and no sentinel is unfinished, with text before it, after the last bullet |
| HeuristicText.FeedText | providers/common/heuristic_tool_parser.py:67-125 | one feed of an idle parser releases all but what is kept back |
| HeuristicText.BulletLostExactly | providers/common/heuristic_tool_parser.py:80-125 | without a bar the pieces do not matter: text is lost if and only if a bullet is among its last 100 characters, and it is lost from the first of these on |
| HeuristicText.LastBulletLost | providers/common/heuristic_tool_parser.py:198-226 | a bullet at the very end is never released |
| CallsInText.TextBeforeCall | providers/common/heuristic_tool_parser.py:75-125 | text before the first call, in any pieces: released up to the first bullet that is still kept back when the header is complete; all else is as if the call and what follows had been fed alone, cut in the same places |
| CallsInText.TextBeforeCallExactly | providers/common/heuristic_tool_parser.py:80-110 | without a bar: all text before the call is released if and only if none of its bullets is in the piece that completes the header or among the last 100 characters fed before that piece; otherwise it is cut at the first of these |
| CallsInText.BulletedLineLost | providers/common/heuristic_tool_parser.py:103-117 | a bulleted line of any length in one piece with the header after it is lost, bullet and all |
| CallsInText.TextAfterCall | providers/common/heuristic_tool_parser.py:127-226 | text after a call, in any pieces that do not cut the call short: one tool with all parameters, and the text is released whole if and only if the part of it that is fed first does not begin with `<` after white space; else none of it is |
| CallsInText.AngleTextHeld | providers/common/heuristic_tool_parser.py:152-174 | text that begins like a tag right after the parameters is never released, whatever follows |
| CallsInText.TextAfterCutShort | providers/common/heuristic_tool_parser.py:152-194 | when the pieces cut the call short, the tool has the parameters before the cut, and the tags after it and the text are released as text |
| CallsInText.TextAroundCall | providers/common/heuristic_tool_parser.py:67-226 | text before and after a call together: the two conditions are all there is to what is lost, and the call is recovered |
| Protocol.AcceptsIffWellFormed | providers/common/sse_builder.py:152-339 | the stream automaton accepts exactly the streams that are well formed position by position: start, k-th block start carries index k, deltas and stops only for an open block of matching kind, every block stopped once, text and thinking never open together, delta, stop |
| Protocol.StreamsIffInOrder | providers/common/sse_builder.py:191-240 | the same for every prefix: the automaton still runs exactly when each event so far is in order |
| Protocol.MessageIs | providers/common/sse_builder.py:164-240 | of a complete message the client puts together one block for each start event, under the number and of the kind it was started with, from exactly the deltas sent to that number, each after the start, of the kind that fits the block, once and in order |
| Sse.SSEBuilder.constructor | providers/openai_compat.py:137-150 | the builder starts with message_start, nothing open, nothing allocated |
| Sse.SSEBuilder.StartThinkingBlock | providers/common/sse_builder.py:242-246 | the thinking block takes the next index and is appended to the blocks |
| Sse.SSEBuilder.EmitThinkingDelta | providers/common/sse_builder.py:248-253 | the delta goes to the open thinking block and to no other |
| Sse.SSEBuilder.StopThinkingBlock | providers/common/sse_builder.py:255-259 | the thinking block is closed; no block changes |
| Sse.SSEBuilder.StartTextBlock | providers/common/sse_builder.py:261-265 | the text block takes the next index and is appended to the blocks |
| Sse.SSEBuilder.EmitTextDelta | providers/common/sse_builder.py:267-270 | the delta goes to the open text block and to no other |
| Sse.SSEBuilder.StopTextBlock | providers/common/sse_builder.py:272-276 | the text block is closed; no block changes |
| Sse.SSEBuilder.EnsureThinkingBlock | providers/common/sse_builder.py:309-314 | afterwards a thinking block and no text block is open: the open one, or a new one at the end |
| Sse.SSEBuilder.EnsureTextBlock | providers/common/sse_builder.py:316-321 | afterwards a text block and no thinking block is open: the open one, or a new one at the end |
| Sse.SSEBuilder.CloseContentBlocks | providers/common/sse_builder.py:323-328 | text and thinking are closed, the blocks as received are unchanged |
| Sse.SSEBuilder.CloseAllBlocks | providers/common/sse_builder.py:330-339 | after it nothing is open: every started block, native tools included, is stopped once |
| Sse.SSEBuilder.EmitError | providers/common/sse_builder.py:341-347 | an error is one complete text block with the message |
| Sse.SSEBuilder.RegisterToolName | providers/common/sse_builder.py:64-80 | a name replaces one it extends, is ignored if the old one begins with it, and is appended otherwise; only this call changes |
| Sse.SSEBuilder.StartToolBlock | providers/common/sse_builder.py:278-293 | the call gets a block of its own with the next index; its other state is kept |
| Sse.SSEBuilder.EmitToolDelta | providers/common/sse_builder.py:295-301 | the delta goes to the block of this call and is recorded in its contents |
| Sse.SSEBuilder.BufferTaskArgs | providers/common/sse_builder.py:82-103 | Task arguments are collected until they parse; an object is handed out once, with run_in_background false and all other keys and values as parsed, and what parses to no object raises with the buffer kept; for a call without a block this keeps the invariant if and only if it changes nothing |
| Sse.StopReasonExactly | providers/common/sse_builder.py:18-31 | tool_calls becomes tool_use, length becomes max_tokens, and everything else, none included, end_turn |
| Sse.SSEBuilder.FlushTaskArgBuffers | providers/common/sse_builder.py:105-131 | exactly the calls with a pending buffer are flushed, each once |
| ToolCalls.TaskOutputIsFirstObject | providers/common/sse_builder.py:82-103 | the single output of a Task call is the patched object of the shortest concatenation of its fragments that parses to an object, and there is none if none does |
| ToolCalls.TaskDelta | providers/common/sse_builder.py:82-131 | so what a Task call holds in the end is `{}`, or the first object its fragments form with run_in_background set to false and every other key and value as parsed |
| ToolCalls.FragmentsAre | providers/openai_compat.py:90-107 | the fragments of a call are the arguments of exactly the deltas meant for it, in order |
| ToolCalls.NumberedInOrder | providers/openai_compat.py:73-88 | deltas without an index that say anything are calls of their own, numbered in order |
| ToolCalls.BlockStarts | providers/openai_compat.py:75-88 | the first delta with a name or an id starts the block, under just these |
| ToolCalls.WholeNameKept | providers/common/sse_builder.py:64-80 | a name that comes whole, again, or grown from a beginning of it ends up whole |
| ToolCalls.BufferIsNoObject | providers/common/sse_builder.py:105-131 | whatever a call is named while its arguments come: what is left in its buffer does not parse to an object |
| ToolCalls.NeverTask | providers/openai_compat.py:90-107 | a call never named Task when arguments come holds its fragments as they came |
| ToolCalls.AlwaysTask | providers/openai_compat.py:90-112 | a call always named Task when arguments come holds exactly one delta in the end if it has any fragment |
| ToolCalls.TracksStep | providers/openai_compat.py:73-107 | one more delta keeps, for every call, the state equal to what all its deltas so far amount to: index, merged name, the name its block was started with, fragments, Task buffer |
| ToolCalls.BlockNameExactly | providers/common/sse_builder.py:64-80 | the block of a call bears a prefix of the name that the call has in the end, and that name itself if and only if no delta after the start of the block changes it; a block started by arguments before there was a name is called tool_call |
| ToolCalls.NameInParts | providers/openai_compat.py:84-88 | a name that comes in two parts: the block bears the first one |
| Translator.ProcessToolCall | providers/openai_compat.py:73-107 | one native tool-call delta, for any index, name, id and arguments, keeps that tracking and the stream and leaves the text alone; a negative index means the number of calls |
| Translator.RegisterAndStart | providers/openai_compat.py:75-88 | a name or an id starts the block of its call, at most once |
| Translator.DeliverArguments | providers/openai_compat.py:90-107 | arguments start the block if need be; Task arguments are buffered, others emitted as they are |
| Translator.FlushTasks | providers/openai_compat.py:109-112 | in the end exactly the started calls have a block of their own, started with the id and name of the delta that started it, and it holds exactly what the deltas of the call amount to, whatever its name was when arguments came; no text block changes |
| Translator.StreamResponse | providers/openai_compat.py:128-332 | for every upstream run, failing anywhere or nowhere: the output is accepted by the protocol; every native call has its block, with the id and name it was started with, and its arguments; the stop reason is tool_use exactly after tool_calls, max_tokens after length, and else end_turn, by the last finish reason read until the error, if any; the text shown, whatever reasoning and tool calls come between, is what the filter releases of the chunks of one scan of the content, then the error if any, then the rest, and for plain content exactly the text characters of that scan; without native calls the blocks are those of reasoning and chunks, item by item, and for plain content exactly the maximal runs of their characters |
| Translator.FinishReasonIsLast | providers/openai_compat.py:165-180 | the finish reason is that of the last choice that has a delta and one, or none |
| Translator.ActsAreUnique | providers/openai_compat.py:165-229 | the upstream items determine, character by character, the order of reasoning and content in what is shown: for each item its reasoning, then its content as far as the scan goes by then |
| Translator.PlainBlocksUnique | providers/openai_compat.py:165-229 | so for plain content and reasoning without native calls, the same items always give the same blocks |
| Translator.ActsReason | providers/openai_compat.py:181-190 | no reasoning is lost, and all of it keeps its order |
| Translator.StreamingLoop | providers/openai_compat.py:165-266 | the loop reads every item up to the first error, which is an upstream failure or a raising delta |
| Translator.ShowError | providers/openai_compat.py:247-266 | an error is shown as text of its own after all that was shown |
| ShownText.PlainTextShown | providers/openai_compat.py:192-207 | plain content: the text that the chunks show is exactly the text characters of one scan |
| ShownText.TextInPut | providers/openai_compat.py:195-207 | content put at the end adds to the text if it is text |
| Translator.ProcessItem | providers/openai_compat.py:165-266 | one upstream item keeps the invariant; any error becomes a text block and ends the loop |
| Translator.ProcessDelta | providers/openai_compat.py:181-245 | reasoning, extra reasoning, content and native tool calls of one delta, in this order |
| Translator.ProcessContent | providers/openai_compat.py:192-229 | the chunks of the think parser are shown one after the other; parser state and output stay in step |
| Translator.ProcessToolCalls | providers/openai_compat.py:231-245 | the native deltas of one chunk in order, up to the first that raises; exactly those are tracked |
| Translator.EmitPart | providers/openai_compat.py:194-229 | thinking is emitted as it is, text as the tool-call filter releases it, each detected tool as a complete block after the text |
| Translator.EmitReason | providers/openai_compat.py:181-186 | a piece of reasoning is shown as a chunk of thinking is, and leaves text and filter alone |
| Translator.EmitExtra | providers/openai_compat.py:188-190 | every piece of extra reasoning that is not empty, in order |
| Translator.EmitThinking | providers/openai_compat.py:195-198 | thinking extends the last block if that is an open thinking block, else it starts a new one |
| Translator.EmitText | providers/openai_compat.py:204-207 | text extends the last block if that is an open text block, else it starts a new one |
| Translator.EmitTextTools | providers/openai_compat.py:209-229 | every tool found in text adds exactly one complete block with its name and its input, Task patched, and closes the block before it |
| Translator.FlushParsers | providers/openai_compat.py:268-300 | what waits in the think parser bypasses the filter, then comes the filter's last tool |
| Translator.FinishMessage | providers/openai_compat.py:268-332 | the end of every run: filler exactly if all went well without any call or text, pending Task arguments, all blocks closed, delta and stop |
| TextStream.PlainShown | providers/openai_compat.py:192-207 | content without bullet and bar: the blocks are exactly the maximal same-kind runs of the scan of the whole content, plus a blank if it has no text |
| TextStream.RunsShown | providers/openai_compat.py:181-207 | any chunks that the filter passes are shown as exactly the maximal same-kind runs of their characters, plus a blank if there is no text |
| TextStream.ToolIsShown | providers/openai_compat.py:209-229 | a tool call found in text is shown under its name with its parameters as strings; one named Task has run_in_background false besides, every other tool keeps its input as it is |
| AnswersShown.CallShown | providers/openai_compat.py:192-229 | any text followed by a well-formed tool call, cut so that no chunk ends in the white space between its tags: one tool block with stripped name and parameters, and before it one text block with what the filter releases of the text, and that white space; without text a blank text block follows |
| AnswersShown.PlainCallShown | providers/openai_compat.py:192-229 | so text without bullets and a call without white space between its tags are shown in full, however they are cut |
| AnswersShown.TextAroundCallShown | providers/openai_compat.py:192-300 | text before and after a call: what is shown of it depends only on the bullets before the call and on whether what comes first after it begins like a tag |
| CallBlocks.CallInTheMiddle | providers/openai_compat.py:192-300 | text before and after a call that no chunk cuts short, however it arrives: text, the one tool, text; what comes in one chunk with the end of the call, or first after it, is shown before the tool |
| CallBlocks.CallAtTheEnd | providers/openai_compat.py:192-300 | when nothing is fed after the call, or what comes first looks like a tag, the tool comes last, after the text and a think tag cut at the very end |
| AnswersShown.AnswerShown | providers/openai_compat.py:192-300 | an answer without tags, headers and finished sentinels, however cut, is one text block with all of the answer but what the filter keeps back in the end (without a bar: from the first bullet among the last 100 characters on); a cut tag at the very end is shown all the same |
| AnswersShown.BulletAnswerBlank | providers/openai_compat.py:268-300 | a short answer that begins with a bullet is shown as a single blank |
| TextStream.RunsUnique | providers/openai_compat.py:192-207 | maximal runs are unique, so upstreams with the same content give the same blocks |
| TextStream.ExtendRuns | providers/openai_compat.py:192-207 | extending the last block or starting a new one keeps the blocks maximal runs |
| TextStream.ScanLacks | providers/common/think_parser.py:44-165 | the scan invents no character |
| AnswersShown.NothingWaits | providers/common/think_parser.py:156-165 | content that ends with `>` leaves nothing for the flush |
| TreeQueueProofs.NothingStranded | messaging/trees/processor.py:64-161 | after every safe run, whole-tree cancellations included: at most one task exists, a busy tree has one that owes a hand-over, a non-empty queue implies busy, without whole-tree cancellation a tree with a task is busy; every enqueued id is exactly one of started once, still queued, or cancelled, and the start order is a subsequence of the enqueue order |
| TreeQueueProofs.StepKeepsExactly | messaging/trees/processor.py:64-161 | a step keeps the scheduler invariant if and only if it meets a condition on the state before it |
| TreeQueueProofs.StateAfter | messaging/trees/queue_manager.py:178-394 | what each step makes of the state of each node: only a raising call, a cancellation that the node is open to, or setting it changes it, for a live node alone |
| TreeQueueProofs.FailedByCause | messaging/trees/processor.py:80-96 | in every run, a node that is failed was set so, cancelled, or its processor call raised; a call that returns fails nothing |
| TreeQueueProofs.KeepOutIs | messaging/trees/data.py:50-56 | taking ids out of a queue leaves every other one, in its order |
| TreeQueueProofs.EnqueueExactly | messaging/trees/processor.py:129-161 | enqueueing keeps the invariant if and only if the node is live, was never enqueued, and no cancelled task is still unwinding |
| TreeQueueProofs.CancelNodeExactly | messaging/trees/queue_manager.py:278-313 | cancelling a node keeps it if and only if it does not hit a task that has not run yet |
| TreeQueueProofs.CancelBranchExactly | messaging/trees/queue_manager.py:361-394 | the same for a branch |
| TreeQueueProofs.CancelTreeKeeps | messaging/trees/queue_manager.py:226-276 | cancelling the tree always keeps it, and leaves a task to unwind if and only if one is inside the processor |
| TreeQueueProofs.TwoAtOnceExactly | messaging/trees/processor.py:129-161 | two tasks at once come about if and only if a live node is enqueued before the task of a cancelled tree has unwound |
| TreeQueueProofs.OnlyCancelTreeUnwinds | messaging/trees/queue_manager.py:226-276 | no other step leaves a task running in a tree that is marked free |
| TreeQueueProofs.ClearBranchExactly | messaging/commands.py:151-171 | cancelling and then removing a branch is safe if and only if no queued node of the branch is already completed or failed |
| TreeQueueProofs.CancelBeforeFirstRunSticks | messaging/trees/queue_manager.py:278-313 | cancelling a task before its first run leaves the tree busy with no task |
| TreeQueueProofs.DeadHeadSticks | messaging/trees/processor.py:114-122 | a dead id at the head of the queue leaves the tree busy with no task at the next hand-over |
| TreeQueueProofs.StuckStays | messaging/trees/processor.py:98-161 | a stuck tree starts nothing more until the whole tree is cancelled |
| TreeQueueProofs.CancelTreeOverlaps | messaging/trees/queue_manager.py:253-267 | a running task whose tree is cancelled, then a new message: two calls at once, and the first to end marks the tree free while the second runs |
| TreeQueueProofs.CancelledAtOnce | messaging/trees/queue_manager.py:278-313 | a run from the start: a message cancelled before its task has run leaves its tree busy for good |
| TreeQueueProofs.ClearedAfterFailure | messaging/commands.py:151-171 | a run from the start: a queued reply fails with its parent, its branch is cleared, and the tree sticks |
| TreeQueueProofs.EnqueuedTwice | messaging/trees/data.py:28-41 | a run from the start: a reply enqueued twice is still queued but no longer in the set, and is started twice |
| TreeQueueProofs.EnqueuedWhileUnwinding | messaging/trees/queue_manager.py:253-267 | a run from the start: a message right after its tree was cancelled runs beside the cancelled one |
| TreeQueueProofs.QueuedBeforeRemoval | messaging/commands.py:151-171 | a run from the start: a reply that is queued in a branch between its cancellation and its removal sticks the tree |
| TreeQueueProofs.EnqueuedAfterRemoval | messaging/trees/queue_manager.py:151-175 | a run from the start: a reply whose branch is removed between the lookup of its tree and its enqueueing sticks the tree |
| TreeQueueProofs.GetKeepsIndexExactly | messaging/trees/data.py:28-41 | taking the head keeps set and queue equal if and only if the id is not queued twice |
| TreeQueueProofs.RunKeeps | messaging/trees/processor.py:64-161 | every safe run keeps the invariant |
| TreeQueueProofs.AllAreStarted | messaging/trees/processor.py:64-127 | from any state that safe runs lead to, letting the tasks run takes a bounded number of steps, and when none can run any more the tree is free and every queued node has been started, in order |
| TreeQueue.SnapshotQueue.Put | messaging/trees/data.py:28-34 | the id goes to the end and into the set |
| TreeQueue.SnapshotQueue.Get | messaging/trees/data.py:36-41 | the oldest id is taken off the queue and the set |
| TreeQueue.SnapshotQueue.RemoveIfPresent | messaging/trees/data.py:50-56 | every copy of the id is removed, order kept; decided by the set |
| TreeScheduler.MessageTreeQueue.EnqueueAndStart | messaging/trees/processor.py:129-161 | is the enqueue step of the state machine; says whether the node was queued |
| TreeScheduler.MessageTreeQueue.HandToNext | messaging/trees/processor.py:98-127 | is the hand-over: the oldest queued node, or the tree becomes free |
| TreeScheduler.MessageTreeQueue.BeginNode | messaging/trees/processor.py:64-81 | is the first run of a task, up to the processor call: a failed node is skipped, any other goes in; no state changes |
| TreeScheduler.MessageTreeQueue.FinishNode | messaging/trees/processor.py:80-96 | is the end of a task and its hand-over: a live node is failed if its call raised, and no state changes otherwise |
| TreeScheduler.MessageTreeQueue.CancelNode | messaging/trees/queue_manager.py:278-313 | is the cancel-node step: a live pending or running node becomes ERROR, leaves the queue, and no other state changes; says whether it could be cancelled |
| TreeScheduler.MessageTreeQueue.CancelBranch | messaging/trees/queue_manager.py:361-394 | the loop over a branch, in any order, is one cancel-branch step; it returns each node that could be cancelled once |
| TreeScheduler.MessageTreeQueue.CancelTree | messaging/trees/queue_manager.py:226-276 | is the cancel-tree step: task, queue, leftover nodes, flag; it returns the node being processed and the queued ones, but not the leftover ones |
| TreeScheduler.MessageTreeQueue.DrainQueue | messaging/trees/data.py:365-382 | empties the queue, fails exactly the drained nodes that are still in the tree, and returns those in order |
| TreeScheduler.MessageTreeQueue.CancelCurrentTask | messaging/trees/data.py:352-357 | a task that has not run yet is gone, a running one still has to finish |
| TreeScheduler.MessageTreeQueue.RemoveFromQueue | messaging/trees/data.py:320-328 | takes just this id out |
| TreeData.MessageTree.AddNode | messaging/trees/data.py:189-225 | a reply is added below a live parent, overwriting whatever has its id, all else unchanged; an unknown parent changes nothing; the result is a tree if and only if neither id was in use |
| TreeData.ChildAddedExactly | messaging/trees/data.py:189-225 | a child under ids that are not in use keeps tree and status index well formed; under an id in use it never does |
| TreeData.MessageTree.UpdateState | messaging/trees/data.py:258-280 | only this node's state changes |
| TreeData.MessageTree.GetDescendants | messaging/trees/data.py:437-454 | ends, and lists the node and everything below it, each once and nothing else |
| TreeData.MessageTree.RemoveBranch | messaging/trees/data.py:456-484 | removes exactly the nodes of the branch, its root from its parent's children and their status ids; below the root the tree stays well formed |
| TreeData.PrunedAre | messaging/trees/data.py:456-484 | what is left is exactly what has no path of parents up to the removed node, and of each only that node among the children is gone |
| TreeData.MessageTree.GetPendingChildren | messaging/trees/repository.py:99-124 | lists exactly once each node that is reached by a path of pending nodes |
| TreeData.MessageTree.MarkNodeError | messaging/trees/queue_manager.py:185-224 | fails exactly the node and, if asked, those pending nodes; no other state changes |
| TreeData.AffectedAre | messaging/trees/queue_manager.py:185-224 | affected are the node and, if asked, exactly those with a path of pending nodes up to it |
| TreeData.FailedAre | messaging/trees/queue_manager.py:199-224 | their state is ERROR, every other state and every other field is as before |
| TreeData.NoPendingChildLeft | messaging/trees/queue_manager.py:185-224 | afterwards no affected node has a pending child |
| TreeData.FailedStartSame | messaging/trees/queue_manager.py:207-219 | failing the node first does not change which nodes are reached from it |
| TreeData.PruneWellFormed | messaging/trees/data.py:456-484 | what is left is a tree with the same root |
| TreeData.AllBelowRoot | messaging/trees/data.py:150-178 | every node of a well-formed tree is below its root |
| TreeData.MessageTree.constructor | messaging/trees/data.py:160-178 | a new tree is its root alone |
| Repository.TreeRepository.ResolveParentNodeId | messaging/trees/repository.py:74-97 | in every reachable repository the answer is the live node whose id or registered status id is asked for if there is one, and none otherwise, also after removals leave stale registrations |
| Repository.TreeRepository.CreateTree | messaging/trees/queue_manager.py:56-85 | the new tree is registered, over any tree of that id, and nothing else changes, for any ids; the index stays right if and only if no other tree uses the id of the new node and its status id is not registered with another tree |
| Repository.TreeRepository.AddToTree | messaging/trees/queue_manager.py:87-126 | the reply is added to the tree of its parent and registered there, for any ids; no other tree changes; false if the parent is no live node; trees and index stay right if and only if the ids of the reply are new to all trees, as far as they matter |
| Repository.TreeRepository.RemoveBranch | messaging/trees/queue_manager.py:396-424 | removes exactly the branch, or the whole tree for its root, with the registrations of its nodes; says which nodes went, and every other tree is unchanged |
| Repository.TreeRepository.RemoveTree | messaging/trees/repository.py:139-152 | the tree and the registrations of its nodes are gone, if there was one |
| Repository.TreeRepository.RegisterNode | messaging/trees/repository.py:46-49 | a further id is registered; this keeps the index right if and only if no other tree uses the id |
| Repository.ReplyExactly | messaging/trees/queue_manager.py:87-126 | a reply leaves its own tree rightly registered if and only if its id is new to the tree and its status id is not registered for something else |
| Repository.TreeRepository.GetTreeForNode | messaging/trees/repository.py:28-33 | in every reachable repository a live node gives exactly the tree it is in, and whatever comes back is a live tree |
| SlidingWindow.SlidingWindowLimiter.TryAcquire | messaging/limiter.py:42-62 | against the full grant history: granted if and only if fewer than the limit lie in the window; a refusal tells exactly when a retry can succeed |
| SlidingWindow.SlidingWindowLimiter.Acquire | messaging/limiter.py:42-62 | amid the attempts of other waiters: waits through every refusal and ends with its first attempt that finds room among all grants until then, which it records |
| SlidingWindow.RefusedAgain | messaging/limiter.py:55-62 | a waiter that has waited the full time and is refused again has lost to a grant made meanwhile |
| SlidingWindow.RateWindowStore.Allow | api/rate_limit.py:27-45 | the same for each key, keys not disturbing each other |
| SlidingWindow.SlideAndTry | providers/rate_limit.py:120-147 | the pruned queue is the full history cut to the window, before and after |
| SlidingWindow.GrantKeepsSpacing | messaging/limiter.py:42-62 | every grant is at least a window after the limit-th grant before it |
| SlidingWindow.WindowBound | providers/rate_limit.py:120-126 | no half-open window holds more than the limit |
| SlidingWindow.RetryExactly | messaging/limiter.py:55-62 | the un-rounded wait is exactly the earliest time with room, if no other grant comes |
| SlidingWindow.ClosedBoundExactly | providers/rate_limit.py:120-126 | every closed window keeps to the limit if and only if no two grants, limit apart, are exactly a window apart |
| SlidingWindow.ClosedGrantExactly | providers/rate_limit.py:120-147 | one more grant keeps that bound if and only if fewer than the limit lie in the closed window that ends now |
| SlidingWindow.LimiterGrantExactly | providers/rate_limit.py:120-147 | a grant that the limiter makes keeps it if and only if the limit-th grant before is not exactly a window old |
| SlidingWindow.ClosedWindowOverflows | providers/rate_limit.py:120-147 | for every limit and window: that many grants at 0 and one more at the window length all find room, and one closed window holds them all |
| SendQueue.CompactingQueue.EnqueueInternal | messaging/limiter.py:243-262 | list and map refine a log: the request joins its key, or starts a new one at the chosen end |
| SendQueue.ForIs | messaging/limiter.py:246-262 | the requests pending for a key are those of the log, each once, in their order |
| SendQueue.WithoutIs | messaging/limiter.py:143-144 | the log without a key is its other requests, each once, in their order |
| SendQueue.KeysInOrder | messaging/limiter.py:246-262 | the keys are those of the log, each once, in the order of the first request for each |
| SendQueue.CompactingQueue.Pop | messaging/limiter.py:134-144 | serves the key of the oldest pending request, with its latest call and all its futures, and nothing else leaves the log |
| SendQueue.CompactingQueue.Settle | messaging/limiter.py:158-168 | settles exactly the futures that are not settled yet |
| SendQueue.CompactingQueue.ServeNext | messaging/limiter.py:134-168 | one turn of the worker, with requests arriving while it waits: exactly the futures pending for the oldest key by then get the outcome of its latest call, none twice, and whatever arrived meanwhile, for the same key too, is pending and unsettled |
| SendQueue.CompactingQueue.FinishService | messaging/limiter.py:158-168 | exactly the batch in service is settled; what is pending by now is not |
| SendQueue.PopHolds | messaging/limiter.py:134-144 | taking the first key off leaves list and map as the rest of the log says |
| SendQueue.ServedApart | messaging/limiter.py:134-144 | what is served shares no future with what is left |
| SendQueue.OnlyArrivals | messaging/limiter.py:246-262 | what is pending for the served key afterwards is exactly what arrived for it meanwhile |
| SendQueue.FirstKeyIsOldest | messaging/limiter.py:143-144 | the head of the key list belongs to the oldest pending request |
| SendQueue.KeysWithout | messaging/limiter.py:143-144 | serving a key does not change the order of the others |
| SendQueue.EnqueueHolds | messaging/limiter.py:246-262 | compaction keeps the map equal to what the log says of every key |
| Converter.ConvertAssistantMessage | providers/common/message_converter.py:62-113 | text, tool calls and reasoning of the message as functions of the blocks |
| Converter.WrittenAre | providers/common/message_converter.py:72-97 | text and thinking blocks are written, each once, in their order |
| Converter.ContentIs | providers/common/message_converter.py:72-104 | joined by blank lines: text as it is, thinking between its tags, on lines of its own |
| Converter.ThinkingsAre | providers/common/message_converter.py:75-81 | the reasoning is that of the thinking blocks, in their order |
| Converter.CallsAre | providers/common/message_converter.py:82-96 | one call for each tool-use block, in their order, with its id, name and input |
| Converter.ReadBack | providers/common/message_converter.py:72-97 | parsed under any chunking, the text gives back each thinking block with its two newlines and each text block in order, if no block holds a think tag; else-empty text reads back as a blank |
| Converter.ScanParts | providers/common/message_converter.py:72-97 | the scan of the joined parts is the parts, with their separators as text |
| Converter.TextComesBackExactly | providers/common/message_converter.py:79-81 | a text comes back as it was if and only if it holds no think tag |
| Transcript.Render | messaging/transcript.py:522-577 | at most the larger of limit and status length; ends with the status if that does not begin with a newline; shows the last segments, as many as fit, in their order and with a newline between, with the marker in front if any is left out; if none fits, the end of the last one; the branch for a last part that fits is never reached |
| Transcript.RenderedAre | messaging/transcript.py:524-533 | the parts to show are exactly the segments that render to something, each once, in their order |
| Transcript.DropOldest | messaging/transcript.py:548-558 | the fewest oldest segments are dropped that make the rest fit |
| Transcript.ShowLast | messaging/transcript.py:560-577 | when none fits, only the tail of the last segment or the status is shown |
| Transcript.LastDoesNotFit | messaging/transcript.py:560-570 | the last segment cannot fit the budget when the loop gave it up |
| Transcript.ShorterFits | messaging/transcript.py:548-558 | dropping more never makes a fitting rest too long, so the first fit is the longest suffix |
| Transcript.LastResortLaws | messaging/transcript.py:560-577 | the last resort keeps to the size and ends with the status |
| CliSessions.CLISessionManager.GetOrCreateSession | cli/manager.py:54-83 | the session the id means, by either id, or a new one that is tracked; an empty id counts as none |
| CliSessions.CLISessionManager.RegisterRealSessionId | cli/manager.py:85-100 | keeps the id maps inverse, unambiguous and complete if and only if the temporary id is unknown or the real id is fresh |
| CliSessions.MoveUnambiguousExactly | cli/manager.py:95-98 | with an unused active id, ids stay unambiguous if and only if the real id is fresh |
| CliSessions.MoveTrackedExactly | cli/manager.py:95-98 | no session is lost if and only if the real id has none yet |
| CliSessions.CLISessionManager.EitherIdWorks | cli/manager.py:65-72 | temporary and real id give the same session |
| CliSessions.CLISessionManager.RemoveSession | cli/manager.py:102-118 | stops and forgets exactly this session and both its ids |
| CliSessions.CLISessionManager.StopAll | cli/manager.py:120-136 | every session ever created has been asked to stop, and the maps are empty |
| Automation.DueExactly | api/automation/scheduler.py:253-276 | a rule is due exactly on its weekdays, from its time on, until it has run on that local date |
| Automation.DueInFigures | api/automation/scheduler.py:253-276 | in figures: when the local clock shows a day and a time of day, a rule is due exactly on its weekdays, from its time on, if its last run was before that midnight |
| Automation.DaysOfTheWeek | api/automation/scheduler.py:258-262 | day 4 of the clock is a Monday, and the days follow each other |
| Automation.AutomationActionWorker.Enqueue | api/automation/scheduler.py:87-100 | queued if and only if not in flight and the queue has room; in flight stays queued plus running, each once; no queued run is a second one on its date if and only if that was so and this one is not |
| Automation.AutomationActionWorker.TickOnce | api/automation/scheduler.py:187-196 | the due candidates are queued in order, each once; one left out is in flight or found the queue full; no automation comes to run twice on a date if and only if none of those queued had a run recorded, on that date or later, after the candidates were read |
| Automation.StaleCandidateRunsTwice | api/automation/scheduler.py:187-196 | a candidate read before a run was recorded and queued after its release waits for a second run on the same date |
| Automation.AutomationActionWorker.Take | api/automation/scheduler.py:107 | an idle worker takes the oldest run |
| Automation.AutomationActionWorker.Commit | api/automation/scheduler.py:108-112 | the recorded runs of an automation keep falling on strictly increasing local dates |
| Automation.AutomationActionWorker.Release | api/automation/scheduler.py:132-135 | only this automation is no longer in flight |
| Automation.RecordKeepsDays | api/automation/scheduler.py:102-135 | a recorded run falls on a later date than all before it |
| Automation.RecordKeepsDaysExactly | api/automation/scheduler.py:102-135 | one more run keeps the dates strictly increasing if and only if all earlier runs are on dates before it |
| Automation.HeldApart | api/automation/scheduler.py:87-100 | whatever else is queued or running belongs to another automation |
| Automation.DueIsEarlierExactly | api/automation/scheduler.py:253-276 | a candidate due by the runs known when it was read has run on no date from today on if and only if none was recorded since |
| Automation.LastRun | api/automation/scheduler.py:214-251 | the newest recorded run of the automation, none exactly if it has none |

## Left out

- HTTP clients, chat-platform adapters, web routers, SQL, settings and the frontend: input and output.
- JSON, UUIDs and the regex engine: JSON is a pair of unknown functions, ids are given values, and the few patterns are written as explicit searches.
- Key order of JSON objects, log lines, token estimates and usage numbers in `message_start` and `message_delta`.
- Cancellation of the response stream from outside (a closed connection) between two events.
- HeuristicText.TextLostExactly: text with a finished sentinel, which is stripped (`ToolPatterns.TokensNotFed`); text with a header is the matter of `CallsInText`.
- ToolPatterns.SentinelCutInTwo: sentinels in more than two pieces.
- CallsInText.TextBeforeCall: a header of more than 101 characters, which is found only in some cuttings.
- CallsInText.TextAfterCall: text after a call with bullets, bars or parameter tags; further calls are the matter of `ManyCalls`.
- ManyCalls.TwoCallsExactly: names that hold parameter tags, and white space alone between the tags.
- Translator.StreamResponse: with native tool calls, the tool blocks and the text are stated, but not the order of the blocks among each other.
- The block manager is part of the builder class, not an object of its own; its generators are lists of events.
- Awaits in the middle of `cancel_tree` and of a processor call: cancellation is delivered only before a task's first run or while its processor call runs.
- TreeData: node objects are values in a map, so aliasing of a node outside the tree is not captured; `context`, timestamps and session ids of nodes are left out.
- TreeData.MessageTree.UpdateState: the session id, the error message and the time of completion that it may set.
- Repository.TreeRepository.RemoveBranch: the cancellation before a whole tree is removed is `TreeScheduler.MessageTreeQueue.CancelTree`, on the scheduler's state.
- Repository: saving, loading and message ids per chat.
- `cleanup_stale_nodes` and `cancel_all`: loops over what is modelled.
- The flood-wait pause, the retry loop with its reactive block and the rounding of Retry-After.
- SlidingWindow.SlidingWindowLimiter.Acquire: the sleeps are a list of later clock readings, with the attempts of others between them; fairness among waiters is not stated.
- SendQueue.CompactingQueue.ServeNext: cancellation of a future from outside while its batch is in service.
- User messages, tool definitions and system prompts in the converter.
- `apply` and the subagent stacks of the transcript, and Markdown.
- CliSessions: a session whose `stop` raises.
- Automation: reading the schedule out of a configuration, stopping and restarting the worker (a run that outlives a stop may share its date with a later one), other processes, a run whose record was not written, and a clock that goes back.
