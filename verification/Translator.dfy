/**
 * The streaming translator from OpenAI-style deltas to the Anthropic event
 * stream (providers/openai_compat.py).
 */
module Translator {
  import opened Text
  import opened Protocol
  import opened Sse
  import opened ToolCalls
  import opened TextStream
  import opened ShownText
  import TP = ThinkParser
  import HP = HeuristicParser

  // ----- What comes from upstream -----

  /** Missing fields are empty. */
  datatype Delta = Delta(reasoning: string, extraReasoning: seq<string>, content: string, toolCalls: seq<ToolCallDelta>)

  /** A chunk without choices, one with a choice, or the error with which the stream ends. */
  datatype Item = NoChoice | Choice(finishReason: string, delta: Option<Delta>) | Failure(message: string)

  function CallsOf(item: Item): seq<ToolCallDelta> {
    if item.Choice? && item.delta.Some? then item.delta.value.toolCalls else []
  }

  function AllCalls(items: seq<Item>): seq<ToolCallDelta> {
    if items == [] then [] else AllCalls(items[..|items| - 1]) + CallsOf(items[|items| - 1])
  }

  /** The last finish reason given by a choice that has a delta. */
  function FinishReason(items: seq<Item>): string {
    if items == [] then ""
    else
      var last := items[|items| - 1];
      if last.Choice? && last.delta.Some? && last.finishReason != "" then last.finishReason
      else FinishReason(items[..|items| - 1])
  }

  /** None comes after it; if it is empty, there is none at all. */
  lemma {:induction false} FinishReasonIsLast(items: seq<Item>)
    ensures var reason := FinishReason(items);
            if reason == "" then forall i :: 0 <= i < |items| && items[i].Choice? && items[i].delta.Some? ==> items[i].finishReason == ""
            else exists i :: 0 <= i < |items| && items[i].Choice? && items[i].delta.Some? && items[i].finishReason == reason
                   && forall j :: i < j < |items| && items[j].Choice? && items[j].delta.Some? ==> items[j].finishReason == ""
  {
    if items != [] {
      var (n, before) := (|items| - 1, items[..|items| - 1]);
      FinishReasonIsLast(before);
      assert forall i :: 0 <= i < n ==> before[i] == items[i];
    }
  }

  function ContentOf(items: seq<Item>): string {
    if items == [] then ""
    else
      var last := items[|items| - 1];
      ContentOf(items[..|items| - 1]) + ContentIn(last)
  }

  function ContentIn(item: Item): string {
    if item.Choice? && item.delta.Some? then item.delta.value.content else ""
  }

  function NonEmpty(texts: seq<string>): seq<string> {
    if texts == [] then []
    else
      var last := texts[|texts| - 1];
      NonEmpty(texts[..|texts| - 1]) + if last != "" then [last] else []
  }

  /** The pieces of reasoning, of either sort, in order. */
  function ReasonsOf(delta: Delta): seq<string> {
    (if delta.reasoning != "" then [delta.reasoning] else []) + NonEmpty(delta.extraReasoning)
  }

  function ReasonsFrom(item: Item): seq<string> {
    if item.Choice? && item.delta.Some? then ReasonsOf(item.delta.value) else []
  }

  function AllReasons(items: seq<Item>): seq<string> {
    if items == [] then [] else AllReasons(items[..|items| - 1]) + ReasonsFrom(items[|items| - 1])
  }

  /** Neither a failure nor native tool calls. */
  ghost predicate NoCalls(items: seq<Item>) {
    forall i :: 0 <= i < |items| ==> !items[i].Failure? && CallsOf(items[i]) == []
  }

  /** Only content: neither reasoning nor native tool calls. */
  ghost predicate AllContent(items: seq<Item>) {
    NoCalls(items) && AllReasons(items) == []
  }

  // ----- What is shown, item by item -----

  function Reasons(texts: seq<string>): seq<Act> {
    seq(|texts|, i requires 0 <= i < |texts| => Reason(texts[i]))
  }

  /** Only chunks of the content have been added. */
  ghost predicate AddsParts(acts: seq<Act>, acts': seq<Act>) {
    acts <= acts' && forall k :: |acts| <= k < |acts'| ==> acts'[k].Part?
  }

  /** These pieces of reasoning have been added, and then only chunks of the content. */
  ghost predicate Adds(acts: seq<Act>, acts': seq<Act>, reasons: seq<string>) {
    AddsParts(acts + Reasons(reasons), acts')
  }

  lemma AddsNothing(acts: seq<Act>)
    ensures Adds(acts, acts, [])
  {
    assert acts + Reasons([]) == acts;
  }

  /** The chunks show all of the scan that the content determines: just a tag it ends in the middle of waits. */
  ghost predicate KeepsPace(parts: seq<TP.ContentChunk>, content: string) {
    exists buffer, inside :: TP.Waiting(buffer, inside) && TP.Advances(content, false, TP.Flat(parts), buffer, inside)
  }

  /**
   * What the items amount to, in order: for each item its reasoning, and then
   * the chunks of its content as far as the scan goes by then.
   */
  ghost predicate ActsOf(acts: seq<Act>, items: seq<Item>)
    decreases |items|
  {
    if items == [] then acts == []
    else
      && KeepsPace(PartsIn(acts), ContentOf(items))
      && exists n: nat :: n <= |acts| && ActsOf(acts[..n], items[..|items| - 1])
           && Adds(acts[..n], acts, ReasonsFrom(items[|items| - 1]))
  }

  lemma OneMoreActs(items: seq<Item>, n: nat, acts: seq<Act>, acts': seq<Act>)
    requires n < |items| && ActsOf(acts, items[..n])
    requires Adds(acts, acts', ReasonsFrom(items[n])) && KeepsPace(PartsIn(acts'), ContentOf(items[..n + 1]))
    ensures ActsOf(acts', items[..n + 1])
  {
    hide KeepsPace, ReasonsFrom, PartsIn, ContentOf;
    var more := items[..n + 1];
    assert more[..n] == items[..n];
    assert acts'[..|acts|] == acts;
  }

  /** So no reasoning is lost or moved before an earlier one. */
  lemma {:induction false} ActsReason(acts: seq<Act>, items: seq<Item>)
    requires ActsOf(acts, items)
    ensures ReasonsIn(acts) == AllReasons(items)
    decreases |items|
  {
    hide KeepsPace, ReasonsFrom;
    if items != [] {
      var last := items[|items| - 1];
      var n: nat :| n <= |acts| && ActsOf(acts[..n], items[..|items| - 1]) && Adds(acts[..n], acts, ReasonsFrom(last));
      ActsReason(acts[..n], items[..|items| - 1]);
      hide ActsOf;
      AddedReasons(acts[..n], acts, ReasonsFrom(last));
    }
  }

  lemma {:induction false} AddedReasons(acts: seq<Act>, acts': seq<Act>, reasons: seq<string>)
    requires Adds(acts, acts', reasons)
    ensures ReasonsIn(acts') == ReasonsIn(acts) + reasons
    decreases |acts'|
  {
    if acts' != [] {
      var (before, last) := (acts'[..|acts'| - 1], acts'[|acts'| - 1]);
      assert before + [last] == acts';
      OneMoreAct(before, last);
      hide ReasonsIn;
      if |acts'| > |acts| + |reasons| {
        AddedReasons(acts, before, reasons);
      } else if reasons != [] {
        assert acts' == acts + Reasons(reasons);
        AddedReasons(acts, before, reasons[..|reasons| - 1]);
      } else {
        assert acts' == acts;
      }
    }
  }

  /** The added characters: the reasoning, and then those by which the content has grown. */
  lemma AddedChars(acts: seq<Act>, acts': seq<Act>, reasons: seq<string>) returns (grown: seq<TP.TypedChar>)
    requires Adds(acts, acts', reasons)
    ensures TP.Flat(PartsIn(acts')) == TP.Flat(PartsIn(acts)) + grown
    ensures TP.Flat(ChunksIn(acts')) == TP.Flat(ChunksIn(acts)) + (TP.Flat(ChunksIn(Reasons(reasons))) + grown)
  {
    hide TP.Flat, ChunksIn, PartsIn;
    var middle := acts + Reasons(reasons);
    var parts := acts'[|middle|..];
    assert middle + parts == acts';
    forall k | 0 <= k < |parts| ensures parts[k].Part? { assert parts[k] == acts'[|middle| + k]; }
    grown := TP.Flat(ChunksIn(parts));
    JoinActs(acts, Reasons(reasons));
    JoinActs(middle, parts);
    AllReasonsNoParts(Reasons(reasons));
    AllParts(parts);
    hide Adds;
    ConcatAssoc(TP.Flat(ChunksIn(acts)), TP.Flat(ChunksIn(Reasons(reasons))), grown);
    assert PartsIn(acts) + [] == PartsIn(acts);
  }

  lemma {:induction false} JoinActs(a: seq<Act>, b: seq<Act>)
    ensures PartsIn(a + b) == PartsIn(a) + PartsIn(b) && ChunksIn(a + b) == ChunksIn(a) + ChunksIn(b)
    ensures TP.Flat(PartsIn(a + b)) == TP.Flat(PartsIn(a)) + TP.Flat(PartsIn(b))
    ensures TP.Flat(ChunksIn(a + b)) == TP.Flat(ChunksIn(a)) + TP.Flat(ChunksIn(b))
    decreases |b|
  {
    hide TP.Flat;
    if b == [] {
      assert a + b == a && PartsIn(a) + [] == PartsIn(a) && ChunksIn(a) + [] == ChunksIn(a);
    } else {
      var n := |b| - 1;
      assert (a + b)[..|a + b| - 1] == a + b[..n];
      JoinActs(a, b[..n]);
    }
    TP.FlatConcat(PartsIn(a), PartsIn(b));
    TP.FlatConcat(ChunksIn(a), ChunksIn(b));
  }

  lemma {:induction false} AllReasonsNoParts(acts: seq<Act>)
    requires forall k :: 0 <= k < |acts| ==> acts[k].Reason?
    ensures PartsIn(acts) == []
  {
    if acts != [] { AllReasonsNoParts(acts[..|acts| - 1]); }
  }

  lemma {:induction false} AllParts(acts: seq<Act>)
    requires forall k :: 0 <= k < |acts| ==> acts[k].Part?
    ensures PartsIn(acts) == ChunksIn(acts)
  {
    if acts != [] { AllParts(acts[..|acts| - 1]); }
  }

  lemma PaceIsUnique(a: seq<Act>, b: seq<Act>, content: string)
    requires KeepsPace(PartsIn(a), content) && KeepsPace(PartsIn(b), content)
    ensures TP.Flat(PartsIn(a)) == TP.Flat(PartsIn(b))
  {
    hide TP.Waiting, TP.Advances, TP.Flat, PartsIn;
    var buf1, in1 :| TP.Waiting(buf1, in1) && TP.Advances(content, false, TP.Flat(PartsIn(a)), buf1, in1);
    var buf2, in2 :| TP.Waiting(buf2, in2) && TP.Advances(content, false, TP.Flat(PartsIn(b)), buf2, in2);
    TP.ReleasedIsUnique(content, TP.Flat(PartsIn(a)), buf1, in1, TP.Flat(PartsIn(b)), buf2, in2);
  }

  /** The items determine what is shown, character by character: reasoning and content come in just one order. */
  lemma {:induction false} ActsAreUnique(a: seq<Act>, b: seq<Act>, items: seq<Item>)
    requires ActsOf(a, items) && ActsOf(b, items)
    ensures TP.Flat(PartsIn(a)) == TP.Flat(PartsIn(b)) && TP.Flat(ChunksIn(a)) == TP.Flat(ChunksIn(b))
    decreases |items|
  {
    hide KeepsPace, ReasonsFrom, TP.Flat, PartsIn, ChunksIn, Adds;
    if items != [] {
      var (before, last) := (items[..|items| - 1], items[|items| - 1]);
      var m: nat :| m <= |a| && ActsOf(a[..m], before) && Adds(a[..m], a, ReasonsFrom(last));
      var n: nat :| n <= |b| && ActsOf(b[..n], before) && Adds(b[..n], b, ReasonsFrom(last));
      ActsAreUnique(a[..m], b[..n], before);
      PaceIsUnique(a, b, ContentOf(items));
      hide ActsOf;
      var x := AddedChars(a[..m], a, ReasonsFrom(last));
      var y := AddedChars(b[..n], b, ReasonsFrom(last));
      SameEnd(TP.Flat(PartsIn(a[..m])), x, y);
    }
  }

  /** So the items determine the blocks, if the content is plain and there are no native tool calls. */
  lemma PlainBlocksUnique(items: seq<Item>, a: seq<Act>, r: Option<TP.ContentChunk>, blocks1: seq<Block>,
                          b: seq<Act>, t: Option<TP.ContentChunk>, blocks2: seq<Block>)
    requires ActsOf(a, items) && PartsOf(PartsIn(a), r, ContentOf(items))
    requires ActsOf(b, items) && PartsOf(PartsIn(b), t, ContentOf(items))
    requires AreRunsOf(blocks1, WithFiller(TP.Flat(ChunksIn(a)) + TP.Emitted(r)))
    requires AreRunsOf(blocks2, WithFiller(TP.Flat(ChunksIn(b)) + TP.Emitted(t)))
    ensures |blocks1| == |blocks2| && forall i :: 0 <= i < |blocks1| ==> SameRun(blocks1[i], blocks2[i])
  {
    hide ActsOf, AreRunsOf, WithFiller, TP.Flat, PartsIn, ChunksIn, ContentOf, NoneEmpty, TP.Waiting;
    ActsAreUnique(a, b, items);
    SameEnd(TP.Flat(PartsIn(a)), TP.Emitted(r), TP.Emitted(t));
    RunsUnique(blocks1, blocks2, WithFiller(TP.Flat(ChunksIn(a)) + TP.Emitted(r)));
  }

  lemma SameEnd<T>(a: seq<T>, x: seq<T>, y: seq<T>)
    requires a + x == a + y
    ensures x == y
  {
    assert (a + x)[|a|..] == x && (a + y)[|a|..] == y;
  }

  // ----- The pieces of the translator -----

  /** An open text or thinking block is the last block. */
  ghost predicate OpenIsLast(sse: SSEBuilder)
    reads sse
  {
    var last := |sse.Blocks()| - 1;
    && (sse.textStarted ==> last >= 0 && sse.textIndex == last && sse.Blocks()[last].kind == TextBlock)
    && (sse.thinkingStarted ==> last >= 0 && sse.thinkingIndex == last && sse.Blocks()[last].kind == ThinkingBlock)
  }

  method EmitThinking(sse: SSEBuilder, content: string)
    requires sse.Valid() && OpenIsLast(sse)
    modifies sse
    ensures sse.Valid() && OpenIsLast(sse) && sse.toolStates == old(sse.toolStates) && sse.textIndex == old(sse.textIndex)
    ensures !sse.ContentClosed()
    ensures sse.Blocks() == Put(old(sse.Blocks()), !old(sse.ContentClosed()), ThinkingBlock, content)
    ensures TextIn(sse.Blocks()) == old(TextIn(sse.Blocks()))
  {
    hide OpenBlocks, ToolsOwn, Run, Assemble, TextIn;
    TextInPut(sse.Blocks(), !sse.ContentClosed(), ThinkingBlock, content);
    sse.EnsureThinkingBlock();
    sse.EmitThinkingDelta(content);
    assert [] + [content] == [content];
  }

  method EmitText(sse: SSEBuilder, content: string)
    requires sse.Valid() && OpenIsLast(sse)
    modifies sse
    ensures sse.Valid() && OpenIsLast(sse) && sse.toolStates == old(sse.toolStates) && sse.textIndex != -1
    ensures !sse.ContentClosed()
    ensures sse.Blocks() == Put(old(sse.Blocks()), !old(sse.ContentClosed()), TextBlock, content)
    ensures TextIn(sse.Blocks()) == old(TextIn(sse.Blocks())) + content
  {
    hide OpenBlocks, ToolsOwn, Run, Assemble, TextIn;
    TextInPut(sse.Blocks(), !sse.ContentClosed(), TextBlock, content);
    sse.EnsureTextBlock();
    sse.EmitTextDelta(content);
    assert [] + [content] == [content];
  }

  /** Tool calls found in text become complete blocks. */
  method EmitTextTools(sse: SSEBuilder, tools: seq<HP.ToolUse>, json: Json, newId: nat -> string)
    requires sse.Valid() && OpenIsLast(sse)
    modifies sse
    ensures sse.Valid() && OpenIsLast(sse) && sse.toolStates == old(sse.toolStates) && sse.textIndex == old(sse.textIndex)
    ensures WithoutIds(sse.Blocks()) == WithoutIds(old(sse.Blocks())) + WholeTools(tools, json)
    ensures TextIn(sse.Blocks()) == old(TextIn(sse.Blocks()))
    ensures sse.ContentClosed() == (tools != [] || old(sse.ContentClosed()))
  {
    hide OpenBlocks, ToolsOwn, Run, Assemble, ToolInput, WithoutIds, WholeTools, TextIn;
    NoToolsYet(sse.Blocks(), tools, json);
    for k := 0 to |tools|
      invariant sse.Valid() && sse.toolStates == old(sse.toolStates) && sse.textIndex == old(sse.textIndex)
      invariant WithoutIds(sse.Blocks()) == WithoutIds(old(sse.Blocks())) + WholeTools(tools[..k], json)
      invariant k == 0 ==> OpenIsLast(sse) && sse.ContentClosed() == old(sse.ContentClosed())
      invariant k > 0 ==> sse.ContentClosed()
    {
      var id := newId(|sse.events|);
      OneMoreTool(old(sse.Blocks()), sse.Blocks(), tools, k, id, json);
      sse.CloseContentBlocks();
      sse.EmitWholeBlock(ToolBlock(id, tools[k].name), json.dumps(ToolInput(tools[k])));
    }
    assert tools[..|tools|] == tools;
    ToolsAddNoText(old(sse.Blocks()), sse.Blocks(), tools, json);
  }

  /** What registering the name and starting the block make of a call. */
  ghost predicate Named(before: map<int, ToolCallState>, after: map<int, ToolCallState>, t: int, tc: ToolCallDelta)
    requires tc.ToolCallDelta?
  {
    if tc.name.None? && tc.id == "" then after == before
    else
      var b := if t in before then before[t] else NO_CALL;
      && t in after && after == before[t := after[t]]
      && ArgumentsIn(after[t]) == ArgumentsIn(b)
      && after[t].started == (b.started || after[t].name != "" || tc.id != "")
      && Some(after[t].name) == NameStep(if t in before then Some(b.name) else None, tc)
      && (if b.started then after[t].toolId == b.toolId && after[t].blockName == b.blockName
          else after[t].started ==> Begun(after[t], Some(StartIn(after[t].name, tc))))
  }

  ghost predicate UnstartedUnnamed(tools: map<int, ToolCallState>) {
    forall t :: t in tools ==> tools[t].started || tools[t].name == ""
  }

  method RegisterAndStart(t: int, tc: ToolCallDelta, sse: SSEBuilder, freshId: string)
    requires sse.Valid() && sse.ContentClosed() && tc.ToolCallDelta? && UnstartedUnnamed(sse.toolStates)
    modifies sse
    ensures sse.Valid() && sse.ContentClosed()
    ensures TextIn(sse.Blocks()) == old(TextIn(sse.Blocks())) && sse.textIndex == old(sse.textIndex)
    ensures Named(old(sse.toolStates), sse.toolStates, t, tc)
  {
    hide OpenBlocks, ToolsOwn, Run, Assemble, MergeName, TextIn;
    if tc.name.Some? {
      sse.RegisterToolName(t, tc.name.value);
    }
    if t !in sse.toolStates || !sse.toolStates[t].started {
      var name := if t in sse.toolStates then sse.toolStates[t].name else "";
      if name != "" || tc.id != "" {
        ghost var blocks := sse.Blocks();
        sse.StartToolBlock(t, if tc.id != "" then tc.id else freshId, name);
        TextInAppend(blocks, sse.Blocks()[|blocks|]);
      }
    }
  }

  /** What the arguments make of a call: they start it if need be, and are buffered or emitted. */
  ghost predicate Delivered(before: map<int, ToolCallState>, after: map<int, ToolCallState>, t: int, tc: ToolCallDelta, json: Json)
    requires tc.ToolCallDelta?
  {
    var b := if t in before then before[t] else NO_CALL;
    && t in after && after == before[t := after[t]]
    && after[t].started
    && after[t].name == (if t in before then b.name else "tool_call")
    && ArgumentsIn(after[t]) == ArgumentsStep(ArgumentsIn(b), after[t].name == "Task", tc.arguments, json)
    && (if b.started then after[t].toolId == b.toolId && after[t].blockName == b.blockName
        else
          && after[t].blockName == (if after[t].name == "" then "tool_call" else after[t].name)
          && (tc.id != "" ==> after[t].toolId == tc.id))
  }

  /** The call with its block started, for its first arguments if need be. */
  ghost predicate IsStarted(before: map<int, ToolCallState>, after: map<int, ToolCallState>, t: int, tc: ToolCallDelta)
    requires tc.ToolCallDelta?
  {
    var b := if t in before then before[t] else NO_CALL;
    && t in after && after == before[t := after[t]]
    && after[t].started && ArgumentsIn(after[t]) == ArgumentsIn(b)
    && after[t].name == (if t in before then b.name else "tool_call")
    && (if b.started then after[t].toolId == b.toolId && after[t].blockName == b.blockName
        else
          && after[t].blockName == (if after[t].name == "" then "tool_call" else after[t].name)
          && (tc.id != "" ==> after[t].toolId == tc.id))
  }

  method EnsureStarted(t: int, tc: ToolCallDelta, sse: SSEBuilder, freshId: string)
    requires sse.Valid() && sse.ContentClosed() && tc.ToolCallDelta?
    modifies sse
    ensures sse.Valid() && sse.ContentClosed()
    ensures TextIn(sse.Blocks()) == old(TextIn(sse.Blocks())) && sse.textIndex == old(sse.textIndex)
    ensures IsStarted(old(sse.toolStates), sse.toolStates, t, tc)
  {
    hide OpenBlocks, ToolsOwn, Run, Assemble, TextIn;
    if t !in sse.toolStates || !sse.toolStates[t].started {
      StartUnnamed(sse.toolStates, t, sse.owner, sse.Blocks());
      var name := if t in sse.toolStates && sse.toolStates[t].name != "" then sse.toolStates[t].name else "tool_call";
      ghost var blocks := sse.Blocks();
      sse.StartToolBlock(t, if tc.id != "" then tc.id else freshId, name);
      TextInAppend(blocks, sse.Blocks()[|blocks|]);
    }
  }

  method DeliverArguments(t: int, tc: ToolCallDelta, sse: SSEBuilder, json: Json, freshId: string) returns (ok: bool)
    requires sse.Valid() && sse.ContentClosed() && tc.ToolCallDelta? && tc.arguments != ""
    modifies sse
    ensures sse.Valid() && sse.ContentClosed()
    ensures TextIn(sse.Blocks()) == old(TextIn(sse.Blocks())) && sse.textIndex == old(sse.textIndex)
    ensures Delivered(old(sse.toolStates), sse.toolStates, t, tc, json)
  {
    hide OpenBlocks, ToolsOwn, Run, Assemble, TextIn, SSEBuilder.Valid;
    ok := true;
    EnsureStarted(t, tc, sse, freshId);
    if sse.toolStates[t].name == "Task" {
      var parsed := sse.BufferTaskArgs(t, tc.arguments, json);
      match parsed {
        case Waiting =>
        case Raises => ok := false;
        case Ready(args) => EmitToolDelta(sse, t, json.dumps(args));
      }
    } else {
      EmitToolDelta(sse, t, tc.arguments);
    }
  }

  method EmitToolDelta(sse: SSEBuilder, t: int, content: string)
    requires sse.Valid() && t in sse.toolStates && sse.toolStates[t].started
    modifies sse`events, sse`toolStates
    ensures sse.Valid() && TextIn(sse.Blocks()) == old(TextIn(sse.Blocks()))
    ensures sse.toolStates == old(sse.toolStates)[t :=
              old(sse.toolStates)[t].(contents := old(sse.toolStates)[t].contents + [content])]
    ensures old(OpenIsLast(sse)) ==> OpenIsLast(sse)
  {
    hide OpenBlocks, ToolBlocks, Run, Assemble, TextIn, IsOrderOf;
    BlockOfTool(sse.toolStates, sse.owner, sse.Blocks(), t);
    TextInDelta(sse.Blocks(), sse.toolStates[t].blockIndex, content);
    hide ToolsOwn;
    sse.EmitToolDelta(t, content);
  }

  lemma BlockOfTool(tools: map<int, ToolCallState>, owner: map<int, int>, blocks: seq<Block>, t: int)
    requires ToolsOwn(tools, owner, blocks) && t in tools && tools[t].started
    ensures 0 <= tools[t].blockIndex < |blocks| && blocks[tools[t].blockIndex].kind.ToolBlock?
  {
  }

  /** One tool-call delta; false is the error raised by a malformed delta or by Task arguments that are no object. */
  method ProcessToolCall(tc: ToolCallDelta, sse: SSEBuilder, json: Json, freshId: string, ghost calls: seq<ToolCallDelta>)
    returns (ok: bool)
    requires sse.Valid() && sse.ContentClosed() && Tracks(sse.toolStates, calls, json)
    modifies sse
    ensures sse.Valid() && sse.ContentClosed()
    ensures TextIn(sse.Blocks()) == old(TextIn(sse.Blocks())) && sse.textIndex == old(sse.textIndex)
    ensures tc.Malformed? ==> !ok && sse.toolStates == old(sse.toolStates)
    ensures tc.ToolCallDelta? ==> Tracks(sse.toolStates, calls + [tc], json)
  {
    if tc.Malformed? {
      return false;
    }
    hide OpenBlocks, ToolsOwn, Run, Assemble, TextIn;
    ghost var before := sse.toolStates;
    TargetIs(before, calls, tc, json);
    hide Tracks;
    var tcIndex := tc.index;
    if tcIndex < 0 {
      tcIndex := |sse.toolStates|;
    }
    RegisterAndStart(tcIndex, tc, sse, freshId);
    ghost var named := sse.toolStates;
    ok := true;
    if tc.arguments != "" {
      ok := DeliverArguments(tcIndex, tc, sse, json, freshId);
    }
    BothSteps(before, named, sse.toolStates, tcIndex, tc, json);
    TracksStep(before, sse.toolStates, calls, tc, json);
  }

  lemma BothSteps(before: map<int, ToolCallState>, named: map<int, ToolCallState>, after: map<int, ToolCallState>,
                  t: int, tc: ToolCallDelta, json: Json)
    requires tc.ToolCallDelta? && Named(before, named, t, tc)
    requires if tc.arguments != "" then Delivered(named, after, t, tc, json) else after == named
    ensures if tc.name.None? && tc.id == "" && tc.arguments == "" then after == before
            else
              && t in after && after == before[t := after[t]]
              && CallStep(if t in before then Some(before[t]) else None, after[t], tc, json)
  {
  }

  lemma TargetIs(tools: map<int, ToolCallState>, calls: seq<ToolCallDelta>, tc: ToolCallDelta, json: Json)
    requires Tracks(tools, calls, json) && tc.ToolCallDelta?
    ensures Target(calls, tc) == if tc.index < 0 then |tools| else tc.index
    ensures UnstartedUnnamed(tools)
  {
  }

  /** A call that is not started has no arguments yet. */
  lemma StartUnnamed(tools: map<int, ToolCallState>, t: int, owner: map<int, int>, blocks: seq<Block>)
    requires ToolsOwn(tools, owner, blocks)
    ensures t in tools && !tools[t].started ==> ArgumentsIn(tools[t]) == NO_ARGUMENTS
  {
  }

  // ----- The stream -----

  /** The text of an error that ended the stream. */
  function ErrorText(error: Option<string>): string {
    if error.Some? then error.value else ""
  }

  /**
   * The parsers are where the content so far leaves them, by way of these
   * chunks; the text so far is what the filter released of them, and the error.
   */
  ghost predicate Parsed(sse: SSEBuilder, think: TP.ThinkTagParser, heuristic: HP.HeuristicToolParser,
                         content: string, acts: seq<Act>, error: Option<string>)
    reads sse, think, heuristic
  {
    && TP.Advances(content, false, TP.Flat(PartsIn(acts)), think.buffer, think.inThinkTag)
    && NoneEmpty(PartsIn(acts)) && heuristic.View() == FedAll(PartsIn(acts)).m
    && TextShown(sse, FedAll(PartsIn(acts)).text, error)
  }

  /** The text so far; without an error, there is a text block exactly if it is not empty. */
  ghost predicate TextShown(sse: SSEBuilder, text: string, error: Option<string>)
    reads sse
  {
    && OpenIsLast(sse) && TextIn(sse.Blocks()) == text + ErrorText(error)
    && (error.None? ==> (sse.textIndex == -1 <==> text == ""))
  }

  ghost predicate IsShown(sse: SSEBuilder, out: Shown)
    reads sse
  {
    && WithoutIds(sse.Blocks()) == out.blocks
    && (out.open <==> !sse.ContentClosed())
    && (sse.textIndex != -1 <==> HasTextBlock(out.blocks))
    && sse.toolStates == map[]
  }

  method ShowThinking(sse: SSEBuilder, content: string, ghost out: Shown)
    requires sse.Valid() && OpenIsLast(sse)
    modifies sse
    ensures sse.Valid() && OpenIsLast(sse) && sse.toolStates == old(sse.toolStates)
    ensures TextIn(sse.Blocks()) == old(TextIn(sse.Blocks())) && sse.textIndex == old(sse.textIndex)
    ensures old(IsShown(sse, out)) ==> IsShown(sse, PutContent(out, ThinkingBlock, content))
  {
    hide OpenBlocks, ToolsOwn, Run, Assemble, OpenIsLast, Put, HasTextBlock, WithoutIds, TextIn;
    PutKeeps(sse.Blocks(), out.open, ThinkingBlock, content);
    EmitThinking(sse, content);
  }

  method ShowText(sse: SSEBuilder, content: string, ghost out: Shown)
    requires sse.Valid() && OpenIsLast(sse)
    modifies sse
    ensures sse.Valid() && OpenIsLast(sse) && sse.toolStates == old(sse.toolStates)
    ensures TextIn(sse.Blocks()) == old(TextIn(sse.Blocks())) + content && sse.textIndex != -1
    ensures old(IsShown(sse, out)) ==> IsShown(sse, PutContent(out, TextBlock, content))
  {
    hide OpenBlocks, ToolsOwn, Run, Assemble, OpenIsLast, Put, HasTextBlock, WithoutIds, TextIn;
    PutKeeps(sse.Blocks(), out.open, TextBlock, content);
    EmitText(sse, content);
  }

  method ShowTools(sse: SSEBuilder, tools: seq<HP.ToolUse>, json: Json, newId: nat -> string, ghost out: Shown)
    requires sse.Valid() && OpenIsLast(sse)
    modifies sse
    ensures sse.Valid() && OpenIsLast(sse) && sse.toolStates == old(sse.toolStates)
    ensures TextIn(sse.Blocks()) == old(TextIn(sse.Blocks())) && sse.textIndex == old(sse.textIndex)
    ensures old(IsShown(sse, out)) ==> IsShown(sse, PutTools(out, tools, json))
  {
    hide OpenBlocks, ToolsOwn, Run, Assemble, HasTextBlock, WithoutIds, WholeTools, TextIn, OpenIsLast;
    ToolsAreNoText(out.blocks, tools, json);
    EmitTextTools(sse, tools, json, newId);
  }

  /** One chunk of parsed content: thinking is emitted, text goes through the tool-call filter. */
  method EmitPart(part: TP.ContentChunk, sse: SSEBuilder, heuristic: HP.HeuristicToolParser, json: Json, newId: nat -> string,
                  ghost fed: HP.Outcome, ghost out: Shown)
    requires sse.Valid() && TextShown(sse, fed.text, None) && heuristic.View() == fed.m
    modifies sse, heuristic
    ensures sse.Valid() && sse.toolStates == old(sse.toolStates)
    ensures TextShown(sse, FedOne(fed, part).text, None) && heuristic.View() == FedOne(fed, part).m
    ensures old(IsShown(sse, out)) && out.m == fed.m ==> IsShown(sse, ShowPart(out, part, json))
  {
    hide OpenBlocks, ToolsOwn, Run, Assemble, HP.FeedMachine, OpenIsLast, Put, HasTextBlock, WithoutIds, WholeTools, TextIn;
    if part.kind == TP.THINKING {
      ShowThinking(sse, part.content, out);
    } else {
      var filtered, detected := heuristic.Feed(part.content);
      ghost var more := out.(m := heuristic.View());
      if filtered != "" {
        ShowText(sse, filtered, more);
        more := PutContent(more, TextBlock, filtered);
      } else {
        assert fed.text + filtered == fed.text;
      }
      ShowTools(sse, detected, json, newId, more);
      JoinShown(fed.text, filtered);
    }
  }

  lemma JoinShown(text: string, more: string)
    ensures text + ErrorText(None) + more == text + more + ErrorText(None)
  {
  }

  /** Content goes through the think parser, chunk by chunk. */
  method ProcessContent(text: string, sse: SSEBuilder, think: TP.ThinkTagParser, heuristic: HP.HeuristicToolParser,
                        json: Json, newId: nat -> string, ghost content: string, ghost acts: seq<Act>)
    returns (ghost acts': seq<Act>)
    requires sse.Valid() && think.Valid() && Parsed(sse, think, heuristic, content, acts, None)
    modifies sse, think, heuristic
    ensures sse.Valid() && think.Valid() && sse.toolStates == old(sse.toolStates)
    ensures Parsed(sse, think, heuristic, content + text, acts', None) && AddsParts(acts, acts')
    ensures old(IsShown(sse, ShowActs(acts, json))) ==> IsShown(sse, ShowActs(acts', json))
  {
    hide OpenBlocks, ToolsOwn, Run, Assemble, IsShown, TP.Advances, TP.Flat, NoneEmpty, ShowPart, FedAll, FedOne, TextShown,
         ShowActs, PartsIn;
    ghost var onlyShown, parts := IsShown(sse, ShowActs(acts, json)), PartsIn(acts);
    ghost var buf, mode := think.buffer, think.inThinkTag;
    var chunks := think.Feed(text);
    label after:
    FedParts(content, parts, buf, mode, text, chunks, think.buffer, think.inThinkTag);
    acts' := acts;
    assert parts == parts + chunks[..0];
    for k := 0 to |chunks|
      invariant sse.Valid() && think.Valid() && sse.toolStates == old(sse.toolStates)
      invariant think.buffer == old@after(think.buffer) && think.inThinkTag == old@after(think.inThinkTag)
      invariant PartsIn(acts') == parts + chunks[..k] && AddsParts(acts, acts')
      invariant heuristic.View() == FedAll(PartsIn(acts')).m && TextShown(sse, FedAll(PartsIn(acts')).text, None)
      invariant onlyShown ==> IsShown(sse, ShowActs(acts', json))
    {
      ActsMachine(acts', json);
      EmitPart(chunks[k], sse, heuristic, json, newId, FedAll(PartsIn(acts')), ShowActs(acts', json));
      ShowOneMoreAct(acts', Part(chunks[k]), json);
      OneMoreAct(acts', Part(chunks[k]));
      FedOneMore(PartsIn(acts'), chunks[k]);
      assert parts + chunks[..k + 1] == parts + chunks[..k] + [chunks[k]];
      acts' := acts' + [Part(chunks[k])];
    }
    assert chunks[..|chunks|] == chunks;
  }

  /** A piece of reasoning is shown as thinking. */
  method EmitReason(sse: SSEBuilder, text: string, json: Json, ghost acts: seq<Act>) returns (ghost acts': seq<Act>)
    requires sse.Valid() && OpenIsLast(sse)
    modifies sse
    ensures sse.Valid() && OpenIsLast(sse) && sse.toolStates == old(sse.toolStates)
    ensures TextIn(sse.Blocks()) == old(TextIn(sse.Blocks())) && sse.textIndex == old(sse.textIndex)
    ensures acts' == acts + [Reason(text)] && PartsIn(acts') == PartsIn(acts)
    ensures old(IsShown(sse, ShowActs(acts, json))) ==> IsShown(sse, ShowActs(acts', json))
  {
    hide OpenBlocks, ToolsOwn, Run, Assemble, OpenIsLast, TextIn, IsShown, ShowActs, PartsIn, PutContent;
    acts' := acts + [Reason(text)];
    OneMoreAct(acts, Reason(text));
    assert PartsIn(acts) + [] == PartsIn(acts);
    ShowOneMoreAct(acts, Reason(text), json);
    ShowThinking(sse, text, ShowActs(acts, json));
  }

  /** Provider-specific reasoning; empty pieces are skipped. */
  method EmitExtra(sse: SSEBuilder, texts: seq<string>, json: Json, ghost acts: seq<Act>) returns (ghost acts': seq<Act>)
    requires sse.Valid() && OpenIsLast(sse)
    modifies sse
    ensures sse.Valid() && OpenIsLast(sse) && sse.toolStates == old(sse.toolStates)
    ensures TextIn(sse.Blocks()) == old(TextIn(sse.Blocks())) && sse.textIndex == old(sse.textIndex)
    ensures acts' == acts + Reasons(NonEmpty(texts)) && PartsIn(acts') == PartsIn(acts)
    ensures old(IsShown(sse, ShowActs(acts, json))) ==> IsShown(sse, ShowActs(acts', json))
  {
    hide OpenBlocks, ToolsOwn, Run, Assemble, OpenIsLast, TextIn, IsShown, ShowActs, PartsIn;
    acts' := acts;
    assert acts + Reasons(NonEmpty(texts[..0])) == acts;
    hide Reasons;
    for k := 0 to |texts|
      invariant sse.Valid() && OpenIsLast(sse) && sse.toolStates == old(sse.toolStates)
      invariant TextIn(sse.Blocks()) == old(TextIn(sse.Blocks())) && sse.textIndex == old(sse.textIndex)
      invariant acts' == acts + Reasons(NonEmpty(texts[..k])) && PartsIn(acts') == PartsIn(acts)
      invariant old(IsShown(sse, ShowActs(acts, json))) ==> IsShown(sse, ShowActs(acts', json))
    {
      OneMoreText(texts, k, acts);
      if texts[k] != "" {
        acts' := EmitReason(sse, texts[k], json, acts');
      }
    }
    assert texts[..|texts|] == texts;
  }

  lemma OneMoreText(texts: seq<string>, k: nat, acts: seq<Act>)
    requires k < |texts|
    ensures acts + Reasons(NonEmpty(texts[..k + 1])) ==
              acts + Reasons(NonEmpty(texts[..k])) + if texts[k] != "" then [Reason(texts[k])] else []
  {
    assert texts[..k + 1][..k] == texts[..k];
  }

  method ProcessToolCalls(calls: seq<ToolCallDelta>, sse: SSEBuilder, json: Json, newId: nat -> string,
                          handled: seq<ToolCallDelta>)
    returns (ok: bool, handled': seq<ToolCallDelta>)
    requires sse.Valid() && sse.ContentClosed() && Tracks(sse.toolStates, handled, json)
    modifies sse
    ensures sse.Valid() && sse.ContentClosed() && Tracks(sse.toolStates, handled', json)
    ensures TextIn(sse.Blocks()) == old(TextIn(sse.Blocks())) && sse.textIndex == old(sse.textIndex)
    ensures handled <= handled' <= handled + calls
    ensures ok ==> handled' == handled + calls
  {
    hide OpenBlocks, ToolsOwn, Run, Assemble, Tracks, TextIn;
    handled' := handled;
    for k := 0 to |calls|
      invariant sse.Valid() && sse.ContentClosed() && Tracks(sse.toolStates, handled', json)
      invariant TextIn(sse.Blocks()) == old(TextIn(sse.Blocks())) && sse.textIndex == old(sse.textIndex)
      invariant handled' == handled + calls[..k]
    {
      ok := ProcessToolCall(calls[k], sse, json, newId(|sse.events|), handled');
      if calls[k].ToolCallDelta? {
        handled' := handled' + [calls[k]];
      }
      if !ok {
        return;
      }
    }
    ok := true;
  }

  /** The body of the streaming loop for one delta; false when it raises. */
  method ProcessDelta(delta: Delta, sse: SSEBuilder, think: TP.ThinkTagParser, heuristic: HP.HeuristicToolParser,
                      json: Json, newId: nat -> string, handled: seq<ToolCallDelta>,
                      ghost content: string, ghost acts: seq<Act>)
    returns (ok: bool, handled': seq<ToolCallDelta>, ghost acts': seq<Act>)
    requires sse.Valid() && think.Valid() && Tracks(sse.toolStates, handled, json)
    requires Parsed(sse, think, heuristic, content, acts, None)
    modifies sse, think, heuristic
    ensures sse.Valid() && think.Valid() && Tracks(sse.toolStates, handled', json)
    ensures Parsed(sse, think, heuristic, content + delta.content, acts', None)
    ensures handled <= handled' <= handled + delta.toolCalls
    ensures ok ==> handled' == handled + delta.toolCalls
    ensures Adds(acts, acts', ReasonsOf(delta))
    ensures old(IsShown(sse, ShowActs(acts, json))) && delta.toolCalls == [] ==> ok && IsShown(sse, ShowActs(acts', json))
  {
    hide OpenBlocks, ToolsOwn, Run, Assemble, Tracks, IsShown, TextIn, FedAll, OpenIsLast, TP.Advances, TP.Flat, NoneEmpty,
         ShowActs, PartsIn, NonEmpty, Reasons;
    ok, handled', acts' := true, handled, acts;
    if delta.reasoning != "" {
      acts' := EmitReason(sse, delta.reasoning, json, acts');
    }
    acts' := EmitExtra(sse, delta.extraReasoning, json, acts');
    JoinReasons(acts, delta);
    if delta.content != "" {
      acts' := ProcessContent(delta.content, sse, think, heuristic, json, newId, content, acts');
    } else {
      assert content + delta.content == content;
    }
    if delta.toolCalls != [] {
      sse.CloseContentBlocks();
      ok, handled' := ProcessToolCalls(delta.toolCalls, sse, json, newId, handled);
      ClosedIsLast(sse);
    }
  }

  lemma JoinReasons(acts: seq<Act>, delta: Delta)
    ensures acts + Reasons(ReasonsOf(delta)) ==
              (if delta.reasoning != "" then acts + [Reason(delta.reasoning)] else acts) + Reasons(NonEmpty(delta.extraReasoning))
  {
    hide NonEmpty;
  }

  lemma ClosedIsLast(sse: SSEBuilder)
    requires sse.ContentClosed()
    ensures OpenIsLast(sse)
  {
  }

  // ----- The end of the stream -----

  /** After the last flush the blocks of the tool calls hold what their fragments amount to. */
  ghost predicate ToolsFinal(tools: map<int, ToolCallState>, calls: seq<ToolCallDelta>, json: Json) {
    && (forall t :: FragmentsOf(calls, t) != [] ==> t in tools && tools[t].started)
    && (forall t :: t in tools ==> tools[t].contents == FinalDeltas(ArgumentsOf(calls, t, json)) && Begun(tools[t], StartOf(calls, t)))
    && (forall t :: t !in tools ==> StartOf(calls, t) == None)
  }

  /** The deltas of the flushed buffers, added to the flushed states. */
  ghost function WithResults(tools: map<int, ToolCallState>, results: seq<(int, string)>): map<int, ToolCallState> {
    if results == [] then tools
    else
      var (rest, last) := (WithResults(tools, results[..|results| - 1]), results[|results| - 1]);
      if last.0 in rest then rest[last.0 := rest[last.0].(contents := rest[last.0].contents + [last.1])] else rest
  }

  lemma {:induction false} WithResultsAt(tools: map<int, ToolCallState>, results: seq<(int, string)>, t: int)
    requires Distinct(FirstOf(results)) && t in tools
    ensures WithResults(tools, results).Keys == tools.Keys
    ensures t !in FirstOf(results) ==> WithResults(tools, results)[t] == tools[t]
    ensures forall i :: 0 <= i < |results| && results[i].0 == t ==>
              WithResults(tools, results)[t] == tools[t].(contents := tools[t].contents + [results[i].1])
  {
    if results != [] {
      var n := |results| - 1;
      var init := results[..n];
      assert forall i :: 0 <= i < n ==> FirstOf(init)[i] == FirstOf(results)[i];
      WithResultsAt(tools, init, t);
      assert results[n].0 == FirstOf(results)[n];
      assert t in FirstOf(init) ==> exists i :: 0 <= i < n && FirstOf(init)[i] == t;
      assert forall i :: 0 <= i < n ==> init[i] == results[i] && results[i].0 == FirstOf(results)[i];
    }
  }

  /** Nothing is pending, or the buffer amounts to the empty object. */
  lemma FinalOne(state: ToolCallState, calls: seq<ToolCallDelta>, t: int, json: Json)
    requires Tracked(state, calls, t, json)
    ensures FinalDeltas(ArgumentsOf(calls, t, json)) ==
              if Pending(state) then state.contents + [FlushOut(json, state.taskArgBuffer)] else state.contents
  {
    BufferIsNoObject(calls, t, json);
  }

  lemma FinalAll(before: map<int, ToolCallState>, results: seq<(int, string)>, calls: seq<ToolCallDelta>, json: Json)
    requires Tracks(before, calls, json) && FlushList(results, before, json)
    ensures ToolsFinal(WithResults(map t | t in before :: FlushState(before[t]), results), calls, json)
  {
    var flushed := map t | t in before :: FlushState(before[t]);
    forall t | t in before
      ensures t in WithResults(flushed, results) && FinalFor(WithResults(flushed, results)[t], calls, t, json)
    {
      FinalOne(before[t], calls, t, json);
      FinalAt(before, flushed, results, t, json);
    }
    hide WithResults, FragmentsOf, ArgumentsOf, FinalDeltas, FlushState;
    SameKeys(flushed, results);
  }

  ghost predicate FinalFor(state: ToolCallState, calls: seq<ToolCallDelta>, t: int, json: Json) {
    && (FragmentsOf(calls, t) != [] ==> state.started) && state.contents == FinalDeltas(ArgumentsOf(calls, t, json))
    && Begun(state, StartOf(calls, t))
  }

  lemma SameKeys(tools: map<int, ToolCallState>, results: seq<(int, string)>)
    ensures WithResults(tools, results).Keys == tools.Keys
  {
  }

  lemma FinalAt(before: map<int, ToolCallState>, flushed: map<int, ToolCallState>, results: seq<(int, string)>, t: int, json: Json)
    requires flushed == map t | t in before :: FlushState(before[t])
    requires FlushList(results, before, json) && t in before
    ensures t in WithResults(flushed, results)
    ensures var after := WithResults(flushed, results)[t];
            && after.started == before[t].started && after.toolId == before[t].toolId && after.blockName == before[t].blockName
            && after.contents ==
                 if Pending(before[t]) then before[t].contents + [FlushOut(json, before[t].taskArgBuffer)] else before[t].contents
  {
    WithResultsAt(flushed, results, t);
    hide WithResults, FlushOut;
    if Pending(before[t]) {
      var i :| 0 <= i < |results| && FirstOf(results)[i] == t;
      assert results[i].0 == t;
    }
  }

  method FlushTasks(sse: SSEBuilder, json: Json, ghost calls: seq<ToolCallDelta>)
    requires sse.Valid() && Tracks(sse.toolStates, calls, json)
    modifies sse
    ensures sse.Valid() && ToolsFinal(sse.toolStates, calls, json)
    ensures TextIn(sse.Blocks()) == old(TextIn(sse.Blocks()))
    ensures old(sse.toolStates) == map[] ==> sse.Blocks() == old(sse.Blocks())
  {
    hide OpenBlocks, ToolsOwn, Run, Assemble, Tracks, ToolsFinal, FlushState, FlushOut, TextIn;
    ghost var before := sse.toolStates;
    AreStarted(before, sse.owner, sse.Blocks());
    var results := sse.FlushTaskArgBuffers(json);
    ghost var flushed := sse.toolStates;
    assert results[..0] == [];
    for k := 0 to |results|
      invariant sse.Valid() && sse.toolStates == WithResults(flushed, results[..k])
      invariant TextIn(sse.Blocks()) == old(TextIn(sse.Blocks()))
      invariant before == map[] ==> sse.Blocks() == old(sse.Blocks())
    {
      var t := results[k].0;
      assert t == FirstOf(results)[k];
      assert results[..k + 1][..k] == results[..k];
      assert Distinct(FirstOf(results[..k])) && t !in FirstOf(results[..k]) by {
        assert forall i :: 0 <= i < k ==> FirstOf(results[..k])[i] == FirstOf(results)[i] != t;
      }
      assert t in flushed && flushed[t] == FlushState(before[t]);
      WithResultsAt(flushed, results[..k], t);
      FlushKeepsStarted(before[t]);
      EmitToolDelta(sse, t, results[k].1);
    }
    assert results[..|results|] == results;
    FinalAll(before, results, calls, json);
  }

  lemma FlushKeepsStarted(state: ToolCallState)
    ensures FlushState(state).started == state.started
  {
  }

  lemma AreStarted(tools: map<int, ToolCallState>, owner: map<int, int>, blocks: seq<Block>)
    requires ToolsOwn(tools, owner, blocks)
    ensures forall t :: t in tools && Pending(tools[t]) ==> tools[t].started
  {
  }

  /** The block was started under this name, and this id if there was one. */
  ghost predicate StartedAs(kind: BlockKind, start: Start) {
    kind.ToolBlock? && kind.name == start.name && (start.id != "" ==> kind.id == start.id)
  }

  /**
   * blockOf gives each started tool call its own block, started under the
   * name and the id of the delta that started it, which holds exactly what its
   * arguments amount to, whatever it was called when they came.
   */
  ghost predicate ToolBlocksHold(blocks: seq<Block>, blockOf: map<int, int>, calls: seq<ToolCallDelta>, json: Json) {
    && (forall t :: t in blockOf <==> StartOf(calls, t).Some?)
    && (forall t :: t in blockOf ==> 0 <= blockOf[t] < |blocks| && StartedAs(blocks[blockOf[t]].kind, StartOf(calls, t).value))
    && (forall t, u :: t in blockOf && u in blockOf && t != u ==> blockOf[t] != blockOf[u])
    && (forall t :: FragmentsOf(calls, t) != [] ==> t in blockOf)
    && (forall t :: t in blockOf ==> blocks[blockOf[t]].deltas == FinalDeltas(ArgumentsOf(calls, t, json)))
  }

  lemma BlocksFromTools(tools: map<int, ToolCallState>, owner: map<int, int>, blocks: seq<Block>,
                        blockOf: map<int, int>, calls: seq<ToolCallDelta>, json: Json)
    requires ToolsOwn(tools, owner, blocks) && ToolsFinal(tools, calls, json)
    requires blockOf == map t | t in tools && tools[t].started :: tools[t].blockIndex
    ensures ToolBlocksHold(blocks, blockOf, calls, json)
  {
  }

  lemma OneMore(items: seq<Item>, n: nat)
    requires n < |items|
    ensures AllCalls(items[..n + 1]) == AllCalls(items[..n]) + CallsOf(items[n])
    ensures FinishReason(items[..n + 1]) ==
              if items[n].Choice? && items[n].delta.Some? && items[n].finishReason != "" then items[n].finishReason
              else FinishReason(items[..n])
    ensures ContentOf(items[..n + 1]) == ContentOf(items[..n]) + ContentIn(items[n])
  {
    assert items[..n + 1][..n] == items[..n];
  }

  /** What is left in the parsers at the end of the input. */
  method FlushParsers(sse: SSEBuilder, think: TP.ThinkTagParser, heuristic: HP.HeuristicToolParser, json: Json,
                      newId: nat -> string, ghost content: string, ghost acts: seq<Act>,
                      ghost error: Option<string>)
    returns (ghost rest: Option<TP.ContentChunk>)
    requires sse.Valid() && think.Valid() && Parsed(sse, think, heuristic, content, acts, error)
    modifies sse, think, heuristic
    ensures sse.Valid() && OpenIsLast(sse) && sse.toolStates == old(sse.toolStates)
    ensures PartsOf(PartsIn(acts), rest, content)
    ensures TextIn(sse.Blocks()) == FedAll(PartsIn(acts)).text + ErrorText(error) + TextInRest(rest)
    ensures error.None? ==> (sse.textIndex == -1 <==> ShownFor(PartsIn(acts), rest) == "")
    ensures old(IsShown(sse, ShowActs(acts, json))) ==> IsShown(sse, ShowRest(ShowActs(acts, json), rest, json))
  {
    hide OpenBlocks, ToolsOwn, Run, Assemble, IsShown, OpenIsLast, TextIn, FedAll, TP.Flat, TP.Scan, NoneEmpty, HP.FlushMachine,
         PutTools, PutContent;
    ghost var out := ShowActs(acts, json);
    LastPart(content, PartsIn(acts), think.buffer, think.inThinkTag);
    ActsMachine(acts, json);
    hide ShowAll, ShowActs, TP.Advances, PartsIn;
    var remaining := think.Flush();
    rest := remaining;
    if remaining.Some? {
      if remaining.value.kind == TP.THINKING {
        ShowThinking(sse, remaining.value.content, out);
      } else {
        ShowText(sse, remaining.value.content, out);
      }
    }
    assert FedAll(PartsIn(acts)).text + ErrorText(error) + "" == FedAll(PartsIn(acts)).text + ErrorText(error);
    var tools := heuristic.Flush();
    ShowTools(sse, tools, json, newId,
              if rest.Some? then PutContent(out, BlockFor(rest.value.kind), rest.value.content) else out);
  }

  function ErrorOf(item: Item, failed: bool, internalError: string): Option<string> {
    if failed then Some(if item.Failure? then item.message else internalError) else None
  }

  /** One upstream item; an error of any origin is shown as a text block. */
  method ProcessItem(item: Item, sse: SSEBuilder, think: TP.ThinkTagParser, heuristic: HP.HeuristicToolParser,
                     json: Json, newId: nat -> string, internalError: string, handled: seq<ToolCallDelta>,
                     ghost content: string, ghost acts: seq<Act>)
    returns (failed: bool, handled': seq<ToolCallDelta>, ghost acts': seq<Act>)
    requires sse.Valid() && think.Valid() && Tracks(sse.toolStates, handled, json)
    requires Parsed(sse, think, heuristic, content, acts, None)
    modifies sse, think, heuristic
    ensures sse.Valid() && think.Valid() && Tracks(sse.toolStates, handled', json)
    ensures Parsed(sse, think, heuristic, content + ContentIn(item), acts', ErrorOf(item, failed, internalError))
    ensures handled <= handled' <= handled + CallsOf(item)
    ensures item.Failure? ==> failed
    ensures !failed ==> handled' == handled + CallsOf(item)
    ensures Adds(acts, acts', ReasonsFrom(item))
    ensures old(IsShown(sse, ShowActs(acts, json))) && !item.Failure? && CallsOf(item) == []
            ==> !failed && IsShown(sse, ShowActs(acts', json))
  {
    hide OpenBlocks, ToolsOwn, Run, Assemble, Tracks, IsShown, ShowActs, Parsed, TextIn, ReasonsOf, Adds;
    failed, handled', acts' := false, handled, acts;
    AddsNothing(acts);
    if item.Failure? {
      failed := true;
      ShowError(item.message, sse, think, heuristic, content, acts);
      assert content + ContentIn(item) == content;
    } else if item.Choice? && item.delta.Some? {
      var ok;
      ok, handled', acts' := ProcessDelta(item.delta.value, sse, think, heuristic, json, newId, handled, content, acts);
      if !ok {
        failed := true;
        ShowError(internalError, sse, think, heuristic, content + ContentIn(item), acts');
      }
    } else {
      assert content + ContentIn(item) == content;
    }
  }

  method ShowError(message: string, sse: SSEBuilder, think: TP.ThinkTagParser, heuristic: HP.HeuristicToolParser,
                   ghost content: string, ghost acts: seq<Act>)
    requires sse.Valid() && think.Valid() && Parsed(sse, think, heuristic, content, acts, None)
    modifies sse
    ensures sse.Valid() && sse.toolStates == old(sse.toolStates)
    ensures Parsed(sse, think, heuristic, content, acts, Some(message))
  {
    hide OpenBlocks, ToolsOwn, Run, Assemble, TextIn, FedAll, TP.Advances, TP.Flat, NoneEmpty, PartsIn;
    ghost var blocks := sse.Blocks();
    sse.CloseContentBlocks();
    sse.EmitError(message);
    TextInAppend(blocks, Block(TextBlock, [message]));
    assert Concat([message]) == message + Concat([]) == message;
    assert FedAll(PartsIn(acts)).text + "" == FedAll(PartsIn(acts)).text;
  }

  /**
   * The text of the message: what was released, an error, and the rest; a blank
   * if all went well and there is nothing to show.
   */
  function WholeText(parts: seq<TP.ContentChunk>, error: Option<string>, rest: Option<TP.ContentChunk>, anyCall: bool): string {
    if error.None? && !anyCall && ShownFor(parts, rest) == "" then " "
    else FedAll(parts).text + ErrorText(error) + TextInRest(rest)
  }

  /** Everything after the streaming loop. */
  method FinishMessage(sse: SSEBuilder, think: TP.ThinkTagParser, heuristic: HP.HeuristicToolParser,
                       json: Json, newId: nat -> string, failed: bool, finishReason: string,
                       ghost handled: seq<ToolCallDelta>, ghost content: string, ghost acts: seq<Act>,
                       ghost error: Option<string>)
    returns (blockOf: map<int, int>, ghost rest: Option<TP.ContentChunk>)
    requires sse.Valid() && think.Valid() && Tracks(sse.toolStates, handled, json)
    requires Parsed(sse, think, heuristic, content, acts, error) && (failed <==> error.Some?)
    modifies sse, think, heuristic
    ensures Accepts(sse.events) && ToolBlocksHold(sse.Blocks(), blockOf, handled, json)
    ensures |sse.events| >= 2 && sse.events[|sse.events| - 2] == MessageDelta(MapStopReason(finishReason))
    ensures PartsOf(PartsIn(acts), rest, content)
    ensures TextIn(sse.Blocks()) == WholeText(PartsIn(acts), error, rest, Keys(handled) != {})
    ensures old(IsShown(sse, ShowActs(acts, json))) && !failed ==> ShowsActs(sse.Blocks(), acts, rest, json)
  {
    hide OpenBlocks, ToolsOwn, Assemble, Run, Tracks, ToolsFinal, Parsed, PartsOf, ShowActs, ShowRest, WithoutIds, Put, OpenIsLast,
         TextIn, FedAll, TextInRest, Keys, PartsIn;
    ghost var onlyShown := IsShown(sse, ShowActs(acts, json)) && !failed;
    KeysTracked(sse.toolStates, handled, json);
    rest := FlushParsers(sse, think, heuristic, json, newId, content, acts, error);
    ghost var ended := ShowRest(ShowActs(acts, json), rest, json);
    ShownWithoutError(PartsIn(acts), rest);
    if !failed && sse.textIndex == -1 && sse.toolStates == map[] {
      ShowText(sse, " ", ended);
    }
    assert onlyShown ==> sse.toolStates == map[] && ShowsActs(sse.Blocks(), acts, rest, json);
    FlushTasks(sse, json, handled);
    blockOf := map t | t in sse.toolStates && sse.toolStates[t].started :: sse.toolStates[t].blockIndex;
    BlocksFromTools(sse.toolStates, sse.owner, sse.Blocks(), blockOf, handled, json);
    hide ToolBlocksHold;
    sse.CloseAllBlocks();
    sse.Emit(MessageDelta(MapStopReason(finishReason)));
    sse.Emit(MessageStop);
  }

  /** The blocks show these acts and the rest. */
  ghost predicate ShowsActs(blocks: seq<Block>, acts: seq<Act>, rest: Option<TP.ContentChunk>, json: Json) {
    WithoutIds(blocks) == ShowBlank(ShowRest(ShowActs(acts, json), rest, json)).blocks
  }

  lemma KeysTracked(tools: map<int, ToolCallState>, calls: seq<ToolCallDelta>, json: Json)
    requires Tracks(tools, calls, json)
    ensures tools == map[] <==> Keys(calls) == {}
  {
  }

  lemma ShownWithoutError(parts: seq<TP.ContentChunk>, rest: Option<TP.ContentChunk>)
    ensures FedAll(parts).text + ErrorText(None) + TextInRest(rest) == ShownFor(parts, rest)
  {
  }

  /**
   * The whole stream. Whatever comes from upstream, and wherever it fails, the
   * events form a complete well-formed message, and native tool calls keep
   * their arguments and bear the id and the name they were started with. Of
   * the first `seen` items, which are all unless it fails, the content is cut
   * into the chunks of one think-tag scan; the text shown is what the tool-call
   * filter releases of them, in order, whatever reasoning and tool calls come
   * between. Without native tool calls, the blocks are those of the reasoning
   * and the chunks, item by item; with plain content, exactly the maximal runs
   * of their characters, with a blank if none is text.
   */
  method StreamResponse(items: seq<Item>, json: Json, newId: nat -> string, internalError: string)
    returns (events: seq<Event>, failed: bool, handled: seq<ToolCallDelta>, blockOf: map<int, int>, seen: nat,
             ghost acts: seq<Act>, ghost rest: Option<TP.ContentChunk>)
    ensures Accepts(events)
    ensures seen <= |items| && (failed ==> seen > 0) && (!failed ==> seen == |items|)
    ensures forall i :: 0 <= i < seen && items[i].Failure? ==> failed && i == seen - 1
    ensures handled <= AllCalls(items[..seen]) && (!failed ==> handled == AllCalls(items))
    ensures ToolBlocksHold(Assemble(events), blockOf, handled, json)
    ensures PartsOf(PartsIn(acts), rest, ContentOf(items[..seen])) && ActsOf(acts, items[..seen])
    ensures TextIn(Assemble(events)) ==
              WholeText(PartsIn(acts), if failed then ErrorOf(items[seen - 1], true, internalError) else None, rest,
                        Keys(handled) != {})
    ensures !failed && PlainText(ContentOf(items)) ==>
              var text := TextOf(TP.Scan(ContentOf(items), false));
              TextIn(Assemble(events)) == if text == "" && Keys(handled) == {} then " " else text
    ensures NoCalls(items) ==> !failed && ShowsActs(Assemble(events), acts, rest, json)
    ensures NoCalls(items) && PlainText(ContentOf(items))
            ==> AreRunsOf(Assemble(events), WithFiller(TP.Flat(ChunksIn(acts)) + TP.Emitted(rest)))
    ensures AllContent(items) ==> Shows(Assemble(events), PartsIn(acts), rest, ContentOf(items), json)
    ensures AllContent(items) && PlainText(ContentOf(items))
            ==> AreRunsOf(Assemble(events), WithFiller(TP.Scan(ContentOf(items), false)))
    ensures |events| >= 2 && events[|events| - 2].MessageDelta?
    ensures var (reason, stop) := (FinishReason(items[..seen]), events[|events| - 2].stopReason);
            && (stop == "tool_use" <==> reason == "tool_calls")
            && (stop == "max_tokens" <==> reason == "length")
            && (stop == "end_turn" <==> reason != "tool_calls" && reason != "length")
  {
    hide *;
    var sse := new SSEBuilder();
    var think := new TP.ThinkTagParser();
    var heuristic := new HP.HeuristicToolParser();
    Beginning(sse, think, heuristic, json);
    var finishReason;
    ghost var error;
    failed, handled, finishReason, seen, acts, error :=
      StreamingLoop(items, sse, think, heuristic, json, newId, internalError);
    blockOf, rest := FinishMessage(sse, think, heuristic, json, newId, failed, finishReason, handled,
                                   ContentOf(items[..seen]), acts, error);
    events := sse.events;
    StopReasonExactly(finishReason);
    BlocksAre(sse);
    if !failed {
      assert items[..seen] == items;
      TextIs(PartsIn(acts), rest, ContentOf(items), Keys(handled) != {});
      if NoCalls(items) { BlocksShown(sse.Blocks(), acts, rest, items, json); }
    }
    ContentHasNoCalls(items);
  }

  lemma ContentHasNoCalls(items: seq<Item>)
    ensures AllContent(items) ==> NoCalls(items)
  {
  }

  lemma BlocksShown(blocks: seq<Block>, acts: seq<Act>, rest: Option<TP.ContentChunk>, items: seq<Item>, json: Json)
    requires ShowsActs(blocks, acts, rest, json) && PartsOf(PartsIn(acts), rest, ContentOf(items))
    requires ActsOf(acts, items)
    ensures PlainText(ContentOf(items)) ==> AreRunsOf(blocks, WithFiller(TP.Flat(ChunksIn(acts)) + TP.Emitted(rest)))
    ensures AllContent(items) ==> Shows(blocks, PartsIn(acts), rest, ContentOf(items), json)
    ensures AllContent(items) && PlainText(ContentOf(items)) ==> AreRunsOf(blocks, WithFiller(TP.Scan(ContentOf(items), false)))
  {
    hide *;
    ActsReason(acts, items);
    ShowsActsIs(blocks, acts, rest, json);
    if PlainText(ContentOf(items)) {
      AllReasonsNonEmpty(items);
      PlainChunks(acts, rest, ContentOf(items));
      RunsShown(blocks, ChunksIn(acts), rest, json);
    }
    if AllContent(items) {
      NoReasons(items);
      OnlyParts(acts);
      ShowsIs(blocks, PartsIn(acts), rest, ContentOf(items), json);
      if PlainText(ContentOf(items)) { PlainShown(blocks, PartsIn(acts), rest, ContentOf(items), json); }
    }
  }

  lemma ShowsActsIs(blocks: seq<Block>, acts: seq<Act>, rest: Option<TP.ContentChunk>, json: Json)
    ensures ShowsActs(blocks, acts, rest, json) <==>
              WithoutIds(blocks) == ShowBlank(ShowRest(ShowAll(ChunksIn(acts), json), rest, json)).blocks
  {
    hide ShowAll, ShowRest, ShowBlank;
  }

  lemma ShowsIs(blocks: seq<Block>, parts: seq<TP.ContentChunk>, rest: Option<TP.ContentChunk>, content: string, json: Json)
    ensures Shows(blocks, parts, rest, content, json) <==>
              && WithoutIds(blocks) == ShowBlank(ShowRest(ShowAll(parts, json), rest, json)).blocks
              && PartsOf(parts, rest, content)
  {
    hide ShowAll, ShowRest, ShowBlank, PartsOf;
  }

  lemma NoReasons(items: seq<Item>)
    requires AllContent(items)
    ensures AllReasons(items) == []
  {
  }

  lemma PlainChunks(acts: seq<Act>, rest: Option<TP.ContentChunk>, content: string)
    requires PartsOf(PartsIn(acts), rest, content) && PlainText(content)
    requires forall k :: 0 <= k < |ReasonsIn(acts)| ==> ReasonsIn(acts)[k] != ""
    ensures forall k :: 0 <= k < |ChunksIn(acts)| ==> PlainPart(ChunksIn(acts)[k])
    ensures rest.Some? ==> rest.value.content != ""
  {
    PlainParts(PartsIn(acts), rest, content);
    hide PlainText, PartsIn, ReasonsIn, ChunksIn;
    PlainActs(acts);
  }

  lemma {:induction false} NonEmptyIs(texts: seq<string>)
    ensures forall k :: 0 <= k < |NonEmpty(texts)| ==> NonEmpty(texts)[k] != ""
  {
    if texts != [] { NonEmptyIs(texts[..|texts| - 1]); }
  }

  lemma {:induction false} AllReasonsNonEmpty(items: seq<Item>)
    ensures forall k :: 0 <= k < |AllReasons(items)| ==> AllReasons(items)[k] != ""
  {
    if items != [] {
      AllReasonsNonEmpty(items[..|items| - 1]);
      var item := items[|items| - 1];
      if item.Choice? && item.delta.Some? { NonEmptyIs(item.delta.value.extraReasoning); }
    }
  }

  lemma BlocksAre(sse: SSEBuilder)
    ensures sse.Blocks() == Assemble(sse.events)
  {
  }

  lemma TextIs(parts: seq<TP.ContentChunk>, rest: Option<TP.ContentChunk>, content: string, anyCall: bool)
    requires PartsOf(parts, rest, content)
    ensures PlainText(content) ==>
              var text := TextOf(TP.Scan(content, false));
              WholeText(parts, None, rest, anyCall) == if text == "" && !anyCall then " " else text
  {
    hide PartsOf, PlainText, TextOf, TP.Scan, FedAll, TextInRest;
    ShownWithoutError(parts, rest);
    if PlainText(content) { PlainTextShown(parts, rest, content); }
  }

  /** The loop over the upstream, up to the first error. */
  method StreamingLoop(items: seq<Item>, sse: SSEBuilder, think: TP.ThinkTagParser, heuristic: HP.HeuristicToolParser,
                       json: Json, newId: nat -> string, internalError: string)
    returns (failed: bool, handled: seq<ToolCallDelta>, finishReason: string, seen: nat,
             ghost acts: seq<Act>, ghost error: Option<string>)
    requires sse.Valid() && think.Valid() && sse.toolStates == map[]
    requires Parsed(sse, think, heuristic, "", [], None) && IsShown(sse, ShowActs([], json))
    modifies sse, think, heuristic
    ensures sse.Valid() && think.Valid() && Tracks(sse.toolStates, handled, json)
    ensures seen <= |items| && (failed ==> seen > 0) && (!failed ==> seen == |items|)
    ensures forall i :: 0 <= i < seen && items[i].Failure? ==> failed && i == seen - 1
    ensures handled <= AllCalls(items[..seen]) && (!failed ==> handled == AllCalls(items))
    ensures finishReason == FinishReason(items[..seen])
    ensures error == if failed then ErrorOf(items[seen - 1], true, internalError) else None
    ensures (failed <==> error.Some?) && Parsed(sse, think, heuristic, ContentOf(items[..seen]), acts, error)
    ensures ActsOf(acts, items[..seen])
    ensures NoCalls(items) ==> !failed && IsShown(sse, ShowActs(acts, json))
  {
    hide *;
    handled, failed, seen, finishReason := [], false, 0, "";
    acts, error := [], None;
    ghost var noCalls := NoCalls(items);
    NothingRead(items, internalError);
    NothingTracked(json);
    while seen < |items| && !failed
      invariant seen <= |items|
      invariant sse.Valid() && think.Valid() && Tracks(sse.toolStates, handled, json)
      invariant HasRead(items, seen, failed, handled, finishReason, error, internalError)
      invariant Parsed(sse, think, heuristic, ContentOf(items[..seen]), acts, error)
      invariant ActsOf(acts, items[..seen])
      invariant noCalls ==> !failed && IsShown(sse, ShowActs(acts, json))
      decreases |items| - seen
    {
      var item := items[seen];
      ghost var before, reason, shown := handled, finishReason, acts;
      if item.Choice? && item.delta.Some? && item.finishReason != "" {
        finishReason := item.finishReason;
      }
      NoErrorYet(items, seen, handled, reason, error, internalError);
      failed, handled, acts :=
        ProcessItem(item, sse, think, heuristic, json, newId, internalError, handled, ContentOf(items[..seen]), acts);
      error := ErrorOf(item, failed, internalError);
      ReadOne(items, seen, before, reason, failed, handled, finishReason, internalError);
      ParsedKeepsPace(sse, think, heuristic, ContentOf(items[..seen + 1]), acts, error);
      OneMoreActs(items, seen, shown, acts);
      seen := seen + 1;
    }
    AllRead(items, seen, failed, handled, finishReason, error, internalError);
  }

  lemma ParsedKeepsPace(sse: SSEBuilder, think: TP.ThinkTagParser, heuristic: HP.HeuristicToolParser,
                        content: string, acts: seq<Act>, error: Option<string>)
    requires think.Valid() && Parsed(sse, think, heuristic, content, acts, error)
    ensures KeepsPace(PartsIn(acts), content)
  {
    hide TP.Waiting, TP.Advances, TP.Flat, NoneEmpty, FedAll, TextShown, PartsIn;
  }

  /** How far the loop is: the first failure, if any, is the last item read. */
  ghost predicate HasRead(items: seq<Item>, n: nat, failed: bool, handled: seq<ToolCallDelta>, finishReason: string,
                          error: Option<string>, internalError: string)
  {
    && n <= |items| && handled <= AllCalls(items[..n]) && finishReason == FinishReason(items[..n])
    && (forall i :: 0 <= i < n && items[i].Failure? ==> failed && i == n - 1)
    && (!failed ==> handled == AllCalls(items[..n]) && error == None)
    && (failed ==> n > 0 && error == ErrorOf(items[n - 1], true, internalError))
  }

  lemma NothingRead(items: seq<Item>, internalError: string)
    ensures HasRead(items, 0, false, [], "", None, internalError) && ContentOf(items[..0]) == ""
    ensures ActsOf([], items[..0])
  {
    assert items[..0] == [];
  }

  lemma NoErrorYet(items: seq<Item>, n: nat, handled: seq<ToolCallDelta>, finishReason: string, error: Option<string>,
                   internalError: string)
    requires HasRead(items, n, false, handled, finishReason, error, internalError)
    ensures error == None
  {
    hide AllCalls, FinishReason;
  }

  lemma ReadOne(items: seq<Item>, n: nat, handled: seq<ToolCallDelta>, reason: string,
                failed: bool, handled': seq<ToolCallDelta>, reason': string, internalError: string)
    requires HasRead(items, n, false, handled, reason, None, internalError) && n < |items|
    requires handled <= handled' <= handled + CallsOf(items[n]) && (!failed ==> handled' == handled + CallsOf(items[n]))
    requires items[n].Failure? ==> failed
    requires reason' == if items[n].Choice? && items[n].delta.Some? && items[n].finishReason != "" then items[n].finishReason
                        else reason
    ensures HasRead(items, n + 1, failed, handled', reason', ErrorOf(items[n], failed, internalError), internalError)
    ensures ContentOf(items[..n + 1]) == ContentOf(items[..n]) + ContentIn(items[n])
    ensures NoCalls(items) ==> !items[n].Failure? && CallsOf(items[n]) == []
  {
    OneMore(items, n);
    hide AllCalls, FinishReason, ContentOf, CallsOf;
  }

  lemma AllRead(items: seq<Item>, n: nat, failed: bool, handled: seq<ToolCallDelta>, finishReason: string,
                error: Option<string>, internalError: string)
    requires HasRead(items, n, failed, handled, finishReason, error, internalError) && (failed || n == |items|)
    ensures handled <= AllCalls(items[..n]) && (!failed ==> handled == AllCalls(items)) && finishReason == FinishReason(items[..n])
    ensures forall i :: 0 <= i < n && items[i].Failure? ==> failed && i == n - 1
    ensures error == if failed then ErrorOf(items[n - 1], true, internalError) else None
    ensures (failed ==> n > 0) && (failed <==> error.Some?)
  {
    if !failed { assert items[..n] == items; }
    hide AllCalls, FinishReason;
  }

  lemma NothingTracked(json: Json)
    ensures Tracks(map[], [], json)
  {
  }

  lemma Beginning(sse: SSEBuilder, think: TP.ThinkTagParser, heuristic: HP.HeuristicToolParser, json: Json)
    requires sse.events == [MessageStart] && sse.ContentClosed() && sse.textIndex == -1 && sse.toolStates == map[]
    requires think.buffer == "" && !think.inThinkTag && heuristic.View() == HP.START
    ensures Parsed(sse, think, heuristic, "", [], None) && IsShown(sse, ShowActs([], json))
  {
    assert [MessageStart][..0] == [];
    forall more: string
      ensures TP.AdvancesOn("", false, [], "", false, more)
    {
    }
  }
}
