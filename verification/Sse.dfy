/**
 * The SSE event builder with its content-block manager
 * (providers/common/sse_builder.py). `events` is the output yielded so far.
 */
module Sse {
  import opened Text
  import opened Protocol

  // ----- JSON, as far as the builder looks into it -----

  datatype JsonValue = Bool(b: bool) | Str(s: string) | Object(fields: map<string, JsonValue>) | Other(repr: string)

  /** The JSON library: `loads` fails on anything that is not a JSON text. */
  datatype Json = Json(loads: string -> Option<JsonValue>, dumps: JsonValue -> string)

  /** Task calls must not run in the background. */
  function PatchTask(fields: map<string, JsonValue>): map<string, JsonValue> {
    fields["run_in_background" := Bool(false)]
  }

  datatype ToolCallState = ToolCallState(
    blockIndex: int,  // negative before the block is started
    toolId: string,
    name: string,
    contents: seq<string>,
    started: bool,
    taskArgBuffer: string,
    taskArgsEmitted: bool,
    blockName: string)  // the name its block was started with, which only the client keeps

  /** Result of buffering one piece of Task arguments; Raises is the error that a non-object provokes. */
  datatype Buffered = Waiting | Ready(args: JsonValue) | Raises

  /** Merges a streamed name fragment into the name so far. */
  function MergeName(prev: string, name: string): string {
    if prev == "" || prev <= name then name
    else if !(name <= prev) then prev + name
    else prev
  }

  function MapStopReason(reason: string): string {
    if reason == "length" then "max_tokens"
    else if reason == "tool_calls" then "tool_use"
    else "end_turn"
  }

  lemma StopReasonExactly(reason: string)
    ensures var stop := MapStopReason(reason);
            && (stop == "tool_use" <==> reason == "tool_calls")
            && (stop == "max_tokens" <==> reason == "length")
            && (stop == "end_turn" <==> reason != "tool_calls" && reason != "length")
  {
  }

  function ToolBlocks(owner: map<int, int>): map<int, DeltaKind> {
    map b | b in owner :: InputJsonDelta
  }

  /** The open blocks, as the builder's flags have them. */
  function OpenBlocks(thinking: bool, thinkingIndex: int, text: bool, textIndex: int, owner: map<int, int>): map<int, DeltaKind> {
    ToolBlocks(owner)
    + (if thinking then map[thinkingIndex := ThinkingDelta] else map[])
    + (if text then map[textIndex := TextDelta] else map[])
  }

  /** Every started tool owns the block it was given, under the id and name it had then, and that block holds its deltas. */
  ghost predicate ToolsOwn(tools: map<int, ToolCallState>, owner: map<int, int>, blocks: seq<Block>) {
    && (forall t :: t in tools && tools[t].started ==>
          tools[t].blockIndex in owner && owner[tools[t].blockIndex] == t)
    && (forall b :: b in owner ==>
          && owner[b] in tools && tools[owner[b]].started && tools[owner[b]].blockIndex == b
          && 0 <= b < |blocks| && blocks[b] == BlockOf(tools[owner[b]]))
    && (forall t :: t in tools && !tools[t].started ==>
          tools[t].contents == [] && tools[t].taskArgBuffer == "" && !tools[t].taskArgsEmitted)
  }

  /** The block of a started tool call, as the client has it. */
  function BlockOf(state: ToolCallState): Block {
    Block(ToolBlock(state.toolId, state.blockName), state.contents)
  }

  lemma OpenToolsOnly(thinkingIndex: int, textIndex: int, owner: map<int, int>)
    ensures OpenBlocks(false, thinkingIndex, false, textIndex, owner) == ToolBlocks(owner)
    ensures OpenBlocks(true, thinkingIndex, false, textIndex, owner) == ToolBlocks(owner)[thinkingIndex := ThinkingDelta]
    ensures OpenBlocks(false, thinkingIndex, true, textIndex, owner) == ToolBlocks(owner)[textIndex := TextDelta]
  {
  }

  lemma StopContent(owner: map<int, int>, b: int, kind: DeltaKind)
    requires b !in owner
    ensures ToolBlocks(owner)[b := kind] - {b} == ToolBlocks(owner)
  {
  }

  lemma NoContentAmongTools(owner: map<int, int>)
    ensures NoContentOpen(ToolBlocks(owner)) && ToolBlocks(owner).Keys == owner.Keys
  {
  }

  lemma OwnersInRange(tools: map<int, ToolCallState>, owner: map<int, int>, blocks: seq<Block>)
    requires ToolsOwn(tools, owner, blocks)
    ensures forall b :: b in owner ==> 0 <= b < |blocks|
  {
  }

  lemma ToolBlocksStart(owner: map<int, int>, b: int, t: int)
    ensures ToolBlocks(owner[b := t]) == ToolBlocks(owner)[b := InputJsonDelta]
  {
  }

  /** New blocks, and deltas to blocks that no tool owns, do not concern the tools. */
  lemma ToolsOwnMore(tools: map<int, ToolCallState>, owner: map<int, int>, blocks: seq<Block>, blocks': seq<Block>)
    requires ToolsOwn(tools, owner, blocks)
    requires |blocks| <= |blocks'| && forall b :: b in owner ==> blocks'[b] == blocks[b]
    ensures ToolsOwn(tools, owner, blocks')
  {
  }

  lemma UnstartedIsEmpty(tools: map<int, ToolCallState>, owner: map<int, int>, blocks: seq<Block>)
    requires ToolsOwn(tools, owner, blocks)
    ensures forall t :: t in tools && !tools[t].started ==>
              tools[t].contents == [] && tools[t].taskArgBuffer == "" && !tools[t].taskArgsEmitted
  {
  }

  lemma ToolsOwnStart(tools: map<int, ToolCallState>, owner: map<int, int>, blocks: seq<Block>,
                      t: int, state: ToolCallState, block: Block)
    requires ToolsOwn(tools, owner, blocks) && |blocks| !in owner
    requires state.started && state.blockIndex == |blocks| && block == BlockOf(state) && block.deltas == []
    requires t in tools ==> !tools[t].started
    ensures ToolsOwn(tools[t := state], owner[|blocks| := t], blocks + [block])
  {
  }

  /** A step that changes neither the block nor the deltas of a tool. */
  lemma ToolsOwnUpdate(tools: map<int, ToolCallState>, owner: map<int, int>, blocks: seq<Block>,
                       t: int, state: ToolCallState)
    requires ToolsOwn(tools, owner, blocks)
    requires t in tools ==>
               state.blockIndex == tools[t].blockIndex && BlockOf(state) == BlockOf(tools[t]) && state.started == tools[t].started
    requires t !in tools ==> !state.started
    requires !state.started ==> state.contents == [] && state.taskArgBuffer == "" && !state.taskArgsEmitted
    ensures ToolsOwn(tools[t := state], owner, blocks)
  {
  }

  /** Only a tool call whose block was started may hold buffered arguments. */
  lemma BufferExactly(tools: map<int, ToolCallState>, owner: map<int, int>, blocks: seq<Block>, t: int, state: ToolCallState)
    requires ToolsOwn(tools, owner, blocks) && t in tools
    requires state == tools[t].(taskArgBuffer := state.taskArgBuffer, taskArgsEmitted := state.taskArgsEmitted)
    ensures ToolsOwn(tools[t := state], owner, blocks) <==> state.started || state == tools[t]
    ensures state == tools[t] ==> tools[t := state] == tools
  {
    assert t in tools[t := state] && tools[t := state][t] == state;
    assert !tools[t].started ==> tools[t].taskArgBuffer == "" && !tools[t].taskArgsEmitted;
    if state.started || state == tools[t] { ToolsOwnUpdate(tools, owner, blocks, t, state); }
  }

  /** The block of a started tool is open for its deltas, and no other kind of block shares its index. */
  lemma ToolIsOpen(tools: map<int, ToolCallState>, owner: map<int, int>, blocks: seq<Block>, t: int,
                   thinking: bool, thinkingIndex: int, text: bool, textIndex: int)
    requires ToolsOwn(tools, owner, blocks) && t in tools && tools[t].started
    requires (thinking ==> thinkingIndex !in owner) && (text ==> textIndex !in owner)
    ensures var open, b := OpenBlocks(thinking, thinkingIndex, text, textIndex, owner), tools[t].blockIndex;
            b in open && open[b] == InputJsonDelta
    ensures 0 <= tools[t].blockIndex < |blocks| && tools[t].contents == blocks[tools[t].blockIndex].deltas
    ensures (thinking ==> thinkingIndex != tools[t].blockIndex) && (text ==> textIndex != tools[t].blockIndex)
  {
  }

  lemma ToolsOwnDelta(tools: map<int, ToolCallState>, owner: map<int, int>, blocks: seq<Block>, t: int, content: string)
    requires ToolsOwn(tools, owner, blocks) && t in tools && tools[t].started
    ensures ToolsOwn(tools[t := tools[t].(contents := tools[t].contents + [content])], owner,
                     AddDelta(blocks, tools[t].blockIndex, content))
  {
  }

  lemma OrderExtends(order: seq<int>, tools: map<int, ToolCallState>, t: int, state: ToolCallState)
    requires IsOrderOf(order, tools)
    ensures IsOrderOf(if t in tools then order else order + [t], tools[t := state])
  {
  }

  ghost predicate IsOrderOf(order: seq<int>, tools: map<int, ToolCallState>) {
    && (forall t :: t in order <==> t in tools)
    && (forall i, j :: 0 <= i < j < |order| ==> order[i] != order[j])
  }

  class SSEBuilder {
    var events: seq<Event>
    var nextIndex: nat
    var thinkingIndex: int
    var textIndex: int
    var thinkingStarted: bool
    var textStarted: bool
    var toolStates: map<int, ToolCallState>
    var toolOrder: seq<int>  // insertion order of the toolStates dictionary
    ghost var owner: map<int, int>  // open tool block -> tool call

    /** The message is under way and the builder knows exactly which blocks are open. */
    ghost predicate Valid()
      reads this
    {
      && Run(events) == Streaming(nextIndex, OpenBlocks(thinkingStarted, thinkingIndex, textStarted, textIndex, owner))
      && |Assemble(events)| == nextIndex
      && !(thinkingStarted && textStarted)
      && (thinkingStarted ==> 0 <= thinkingIndex < nextIndex && thinkingIndex !in owner && Blocks()[thinkingIndex].kind == ThinkingBlock)
      && (textStarted ==> 0 <= textIndex < nextIndex && textIndex !in owner && Blocks()[textIndex].kind == TextBlock)
      && ToolsOwn(toolStates, owner, Assemble(events))
      && IsOrderOf(toolOrder, toolStates)
    }

    ghost function Blocks(): seq<Block>
      reads this
    {
      Assemble(events)
    }

    predicate ContentClosed()
      reads this
    {
      !thinkingStarted && !textStarted
    }

    /** A new builder that has already yielded message_start. */
    constructor ()
      ensures Valid() && events == [MessageStart]
      ensures ContentClosed() && textIndex == -1 && toolStates == map[]
    {
      events := [MessageStart];
      nextIndex := 0;
      thinkingIndex, textIndex := -1, -1;
      thinkingStarted, textStarted := false, false;
      toolStates, toolOrder, owner := map[], [], map[];
      new;
      assert events[..0] == [];
    }

    method Emit(e: Event)
      modifies this`events
      ensures events == old(events) + [e]
      ensures Run(events) == Step(old(Run(events)), e)
      ensures Assemble(events) == AddEvent(old(Assemble(events)), e)
    {
      RunAppend(events, e);
      AssembleAppend(events, e);
      events := events + [e];
    }

    method AllocateIndex() returns (idx: nat)
      modifies this`nextIndex
      ensures idx == old(nextIndex) && nextIndex == old(nextIndex) + 1
    {
      idx := nextIndex;
      nextIndex := nextIndex + 1;
    }

    method StartThinkingBlock()
      requires Valid() && ContentClosed()
      modifies this`events, this`nextIndex, this`thinkingIndex, this`thinkingStarted
      ensures Valid() && thinkingStarted && !textStarted
      ensures thinkingIndex == |old(Blocks())| && Blocks() == old(Blocks()) + [Block(ThinkingBlock, [])]
    {
      hide OpenBlocks, ToolBlocks, ToolsOwn;
      ghost var blocks := Blocks();
      OpenToolsOnly(thinkingIndex, textIndex, owner);
      thinkingIndex := AllocateIndex();
      thinkingStarted := true;
      NoContentAmongTools(owner);
      OwnersInRange(toolStates, owner, blocks);
      Emit(BlockStart(thinkingIndex, ThinkingBlock));
      OpenToolsOnly(thinkingIndex, textIndex, owner);
      ToolsOwnMore(toolStates, owner, blocks, Blocks());
    }

    method EmitThinkingDelta(content: string)
      requires Valid() && thinkingStarted
      modifies this`events
      ensures Valid() && Blocks() == AddDelta(old(Blocks()), thinkingIndex, content)
    {
      hide OpenBlocks, ToolBlocks, ToolsOwn;
      ghost var blocks := Blocks();
      OpenToolsOnly(thinkingIndex, textIndex, owner);
      OwnersInRange(toolStates, owner, blocks);
      Emit(BlockDelta(thinkingIndex, ThinkingDelta, content));
      ToolsOwnMore(toolStates, owner, blocks, Blocks());
    }

    method StopThinkingBlock()
      requires Valid() && thinkingStarted
      modifies this`events, this`thinkingStarted
      ensures Valid() && ContentClosed() && Blocks() == old(Blocks())
    {
      hide OpenBlocks, ToolBlocks, ToolsOwn;
      OpenToolsOnly(thinkingIndex, textIndex, owner);
      thinkingStarted := false;
      Emit(BlockStop(thinkingIndex));
      StopContent(owner, thinkingIndex, ThinkingDelta);
    }

    method StartTextBlock()
      requires Valid() && ContentClosed()
      modifies this`events, this`nextIndex, this`textIndex, this`textStarted
      ensures Valid() && textStarted && !thinkingStarted
      ensures textIndex == |old(Blocks())| && Blocks() == old(Blocks()) + [Block(TextBlock, [])]
    {
      hide OpenBlocks, ToolBlocks, ToolsOwn;
      ghost var blocks := Blocks();
      OpenToolsOnly(thinkingIndex, textIndex, owner);
      textIndex := AllocateIndex();
      textStarted := true;
      NoContentAmongTools(owner);
      OwnersInRange(toolStates, owner, blocks);
      Emit(BlockStart(textIndex, TextBlock));
      OpenToolsOnly(thinkingIndex, textIndex, owner);
      ToolsOwnMore(toolStates, owner, blocks, Blocks());
    }

    method EmitTextDelta(content: string)
      requires Valid() && textStarted
      modifies this`events
      ensures Valid() && Blocks() == AddDelta(old(Blocks()), textIndex, content)
    {
      hide OpenBlocks, ToolBlocks, ToolsOwn;
      ghost var blocks := Blocks();
      OpenToolsOnly(thinkingIndex, textIndex, owner);
      OwnersInRange(toolStates, owner, blocks);
      Emit(BlockDelta(textIndex, TextDelta, content));
      ToolsOwnMore(toolStates, owner, blocks, Blocks());
    }

    method StopTextBlock()
      requires Valid() && textStarted
      modifies this`events, this`textStarted
      ensures Valid() && ContentClosed() && Blocks() == old(Blocks())
    {
      hide OpenBlocks, ToolBlocks, ToolsOwn;
      OpenToolsOnly(thinkingIndex, textIndex, owner);
      textStarted := false;
      Emit(BlockStop(textIndex));
      StopContent(owner, textIndex, TextDelta);
    }

    /** Afterwards thinking can be emitted: to the block it went to before, or to a new last one. */
    method EnsureThinkingBlock()
      requires Valid()
      modifies this`events, this`nextIndex, this`thinkingIndex, this`thinkingStarted, this`textStarted
      ensures Valid() && thinkingStarted && !textStarted
      ensures old(thinkingStarted) ==> thinkingIndex == old(thinkingIndex) && Blocks() == old(Blocks())
      ensures !old(thinkingStarted) ==>
                thinkingIndex == |old(Blocks())| && Blocks() == old(Blocks()) + [Block(ThinkingBlock, [])]
    {
      hide OpenBlocks, ToolsOwn;
      if textStarted {
        StopTextBlock();
      }
      if !thinkingStarted {
        StartThinkingBlock();
      }
    }

    /** Afterwards text can be emitted: to the block it went to before, or to a new last one. */
    method EnsureTextBlock()
      requires Valid()
      modifies this`events, this`nextIndex, this`textIndex, this`thinkingStarted, this`textStarted
      ensures Valid() && textStarted && !thinkingStarted
      ensures old(textStarted) ==> textIndex == old(textIndex) && Blocks() == old(Blocks())
      ensures !old(textStarted) ==>
                textIndex == |old(Blocks())| && Blocks() == old(Blocks()) + [Block(TextBlock, [])]
    {
      hide OpenBlocks, ToolsOwn;
      if thinkingStarted {
        StopThinkingBlock();
      }
      if !textStarted {
        StartTextBlock();
      }
    }

    /** Leaves at most the blocks of native tool calls open. */
    method CloseContentBlocks()
      requires Valid()
      modifies this`events, this`thinkingStarted, this`textStarted
      ensures Valid() && ContentClosed() && Blocks() == old(Blocks())
    {
      hide OpenBlocks, ToolsOwn;
      if thinkingStarted {
        StopThinkingBlock();
      }
      if textStarted {
        StopTextBlock();
      }
    }

    /** A block that is started, filled by one delta and stopped at once. */
    method EmitWholeBlock(kind: BlockKind, content: string)
      requires Valid() && ContentClosed()
      modifies this`events, this`nextIndex
      ensures Valid() && Blocks() == old(Blocks()) + [Block(kind, [content])]
    {
      hide OpenBlocks, ToolBlocks, ToolsOwn;
      ghost var blocks := Blocks();
      OpenToolsOnly(thinkingIndex, textIndex, owner);
      NoContentAmongTools(owner);
      OwnersInRange(toolStates, owner, blocks);
      var idx := AllocateIndex();
      Emit(BlockStart(idx, kind));
      Emit(BlockDelta(idx, DeltaFor(kind), content));
      Emit(BlockStop(idx));
      StopContent(owner, idx, DeltaFor(kind));
      assert [] + [content] == [content];
      assert (blocks + [Block(kind, [])])[idx := Block(kind, [content])] == blocks + [Block(kind, [content])];
      ToolsOwnMore(toolStates, owner, blocks, Blocks());
    }

    /** An error is shown to the user as a text block. */
    method EmitError(message: string)
      requires Valid() && ContentClosed()
      modifies this`events, this`nextIndex
      ensures Valid() && Blocks() == old(Blocks()) + [Block(TextBlock, [message])]
    {
      EmitWholeBlock(TextBlock, message);
    }

    // ----- Native tool calls -----

    /** A name given again, or longer, replaces the one before; other pieces are put together. */
    method RegisterToolName(index: int, name: string)
      requires Valid()
      modifies this`toolStates, this`toolOrder
      ensures Valid()
      ensures index in toolStates && (index !in old(toolStates) ==> toolStates[index].name == name)
      ensures index in old(toolStates) ==>
                var prev := old(toolStates)[index].name;
                && (prev <= name ==> toolStates[index].name == name)
                && (name <= prev ==> toolStates[index].name == prev)
                && (!(prev <= name) && !(name <= prev) ==> toolStates[index].name == prev + name)
      ensures toolStates == old(toolStates)[index :=
                if index in old(toolStates)
                then old(toolStates)[index].(name := MergeName(old(toolStates)[index].name, name))
                else ToolCallState(-1, "", name, [], false, "", false, "")]
    {
      hide OpenBlocks, ToolBlocks, ToolsOwn, IsOrderOf;
      ghost var state := if index in toolStates
        then toolStates[index].(name := MergeName(toolStates[index].name, name))
        else ToolCallState(-1, "", name, [], false, "", false, "");
      UnstartedIsEmpty(toolStates, owner, Blocks());
      ToolsOwnUpdate(toolStates, owner, Blocks(), index, state);
      OrderExtends(toolOrder, toolStates, index, state);
      if index !in toolStates {
        toolStates := toolStates[index := ToolCallState(-1, "", name, [], false, "", false, "")];
        toolOrder := toolOrder + [index];
        return;
      }
      var prev := toolStates[index].name;
      if prev == "" || prev <= name {
        toolStates := toolStates[index := toolStates[index].(name := name)];
      } else if !(name <= prev) {
        toolStates := toolStates[index := toolStates[index].(name := prev + name)];
      } else {
        assert toolStates[index := state] == toolStates;
      }
    }

    method StartToolBlock(toolIndex: int, toolId: string, name: string)
      requires Valid() && ContentClosed()
      requires toolIndex in toolStates ==> !toolStates[toolIndex].started
      modifies this`events, this`nextIndex, this`toolStates, this`toolOrder, this`owner
      ensures Valid()
      ensures toolStates == old(toolStates)[toolIndex :=
                if toolIndex in old(toolStates)
                then old(toolStates)[toolIndex].(blockIndex := old(nextIndex), toolId := toolId, started := true, blockName := name)
                else ToolCallState(old(nextIndex), toolId, name, [], true, "", false, name)]
      ensures Blocks() == old(Blocks()) + [Block(ToolBlock(toolId, name), [])]
    {
      hide OpenBlocks, ToolBlocks, ToolsOwn, IsOrderOf, Run, Assemble;
      ghost var blocks, tools, order := Blocks(), toolStates, toolOrder;
      OpenToolsOnly(thinkingIndex, textIndex, owner);
      OwnersInRange(toolStates, owner, blocks);
      UnstartedIsEmpty(toolStates, owner, blocks);
      var blockIdx := AllocateIndex();
      if toolIndex in toolStates {
        toolStates := toolStates[toolIndex :=
          toolStates[toolIndex].(blockIndex := blockIdx, toolId := toolId, started := true, blockName := name)];
      } else {
        toolStates := toolStates[toolIndex := ToolCallState(blockIdx, toolId, name, [], true, "", false, name)];
        toolOrder := toolOrder + [toolIndex];
      }
      ghost var block := Block(ToolBlock(toolId, name), []);
      ToolsOwnStart(tools, owner, blocks, toolIndex, toolStates[toolIndex], block);
      ToolBlocksStart(owner, blockIdx, toolIndex);
      OrderExtends(order, tools, toolIndex, toolStates[toolIndex]);
      owner := owner[blockIdx := toolIndex];
      OpenToolsOnly(thinkingIndex, textIndex, owner);
      Emit(BlockStart(blockIdx, ToolBlock(toolId, name)));
    }

    method EmitToolDelta(toolIndex: int, partialJson: string)
      requires Valid() && toolIndex in toolStates && toolStates[toolIndex].started
      modifies this`events, this`toolStates
      ensures Valid()
      ensures toolStates == old(toolStates)[toolIndex :=
                old(toolStates)[toolIndex].(contents := old(toolStates)[toolIndex].contents + [partialJson])]
      ensures Blocks() == AddDelta(old(Blocks()), toolStates[toolIndex].blockIndex, partialJson)
    {
      hide OpenBlocks, ToolBlocks, ToolsOwn, IsOrderOf, Run, Assemble;
      var state := toolStates[toolIndex];
      ghost var tools, blocks := toolStates, Blocks();
      ToolIsOpen(tools, owner, blocks, toolIndex, thinkingStarted, thinkingIndex, textStarted, textIndex);
      ToolsOwnDelta(tools, owner, blocks, toolIndex, partialJson);
      OrderExtends(toolOrder, tools, toolIndex, state.(contents := state.contents + [partialJson]));
      toolStates := toolStates[toolIndex := state.(contents := state.contents + [partialJson])];
      Emit(BlockDelta(state.blockIndex, InputJsonDelta, partialJson));
    }

    /** Buffers Task arguments until they form a JSON object. A call without a block must not come to hold any. */
    method BufferTaskArgs(index: int, args: string, json: Json) returns (r: Buffered)
      requires Valid()
      modifies this`toolStates
      ensures Valid() <==> toolStates == old(toolStates) || (index in toolStates && toolStates[index].started)
      ensures index !in old(toolStates) ==> r == Waiting && toolStates == old(toolStates)
      ensures index in old(toolStates) ==>
              var before := old(toolStates)[index];
              var buffer := before.taskArgBuffer + args;
              var parsed := json.loads(buffer);
              if before.taskArgsEmitted then r == Waiting && toolStates == old(toolStates)
              else if parsed.None? || !parsed.value.Object? then
                && r == (if parsed.None? then Waiting else Raises)
                && toolStates == old(toolStates)[index := before.(taskArgBuffer := buffer)]
              else
                && r == Ready(Object(PatchTask(parsed.value.fields)))
                && toolStates == old(toolStates)[index := before.(taskArgBuffer := "", taskArgsEmitted := true)]
      ensures r.Ready? ==>
              index in old(toolStates) &&
              var parsed := json.loads(old(toolStates)[index].taskArgBuffer + args);
              && parsed.Some? && parsed.value.Object? && r.args.Object?
              && r.args.fields.Keys == parsed.value.fields.Keys + {"run_in_background"}
              && r.args.fields["run_in_background"] == Bool(false)
              && forall k :: k in parsed.value.fields && k != "run_in_background" ==> r.args.fields[k] == parsed.value.fields[k]
    {
      hide OpenBlocks, ToolBlocks, ToolsOwn, IsOrderOf;
      if index !in toolStates || toolStates[index].taskArgsEmitted {
        return Waiting;
      }
      var state := toolStates[index];
      ghost var buffered := state.(taskArgBuffer := state.taskArgBuffer + args);
      ghost var emitted := state.(taskArgBuffer := "", taskArgsEmitted := true);
      BufferExactly(toolStates, owner, Blocks(), index, buffered);
      BufferExactly(toolStates, owner, Blocks(), index, emitted);
      OrderExtends(toolOrder, toolStates, index, buffered);
      OrderExtends(toolOrder, toolStates, index, emitted);
      assert toolStates[index := buffered][index := emitted] == toolStates[index := emitted];
      state := state.(taskArgBuffer := state.taskArgBuffer + args);
      toolStates := toolStates[index := state];
      var parsed := json.loads(state.taskArgBuffer);
      if parsed.None? {
        return Waiting;
      }
      if !parsed.value.Object? {
        return Raises;
      }
      var fields := parsed.value.fields;
      if "run_in_background" !in fields || fields["run_in_background"] != Bool(false) {
        fields := fields["run_in_background" := Bool(false)];
      }
      toolStates := toolStates[index := state.(taskArgBuffer := "", taskArgsEmitted := true)];
      r := Ready(Object(fields));
    }

    /** Empties every pending Task buffer; returns what is still to be emitted for each. */
    method FlushTaskArgBuffers(json: Json) returns (results: seq<(int, string)>)
      requires Valid()
      modifies this`toolStates
      ensures Valid()
      ensures FlushList(results, old(toolStates), json)
      ensures toolStates == map t | t in old(toolStates) :: FlushState(old(toolStates)[t])
    {
      results := [];
      ghost var before, order := toolStates, toolOrder;
      FlushNothing(before, json);
      IsInOrder();
      hide *;
      for k := 0 to |toolOrder|
        invariant Valid() && toolOrder == order
        invariant Flushing(before, order, k, toolStates, results, json)
      {
        var toolIndex := toolOrder[k];
        FlushStep(before, order, k, toolStates, results, json);
        if Pending(toolStates[toolIndex]) {
          var out := FlushPending(toolIndex, json);
          results := results + [(toolIndex, out)];
        }
      }
      FlushEverything(before, order, toolStates, results, json);
    }

    lemma IsInOrder()
      requires Valid()
      ensures IsOrderOf(toolOrder, toolStates)
    {
    }

    /** The body of the loop: one buffer that never parsed, or parses only now. */
    method FlushPending(toolIndex: int, json: Json) returns (out: string)
      requires Valid() && toolIndex in toolStates && Pending(toolStates[toolIndex])
      modifies this`toolStates
      ensures Valid() && toolStates == old(toolStates)[toolIndex := FlushState(old(toolStates)[toolIndex])]
      ensures out == FlushOut(json, old(toolStates)[toolIndex].taskArgBuffer)
    {
      hide OpenBlocks, ToolBlocks, ToolsOwn, IsOrderOf;
      var state := toolStates[toolIndex];
      out := "{}";
      var parsed := json.loads(state.taskArgBuffer);
      if parsed.Some? && parsed.value.Object? {
        out := json.dumps(Object(PatchTask(parsed.value.fields)));
      }
      ghost var flushed := state.(taskArgBuffer := "", taskArgsEmitted := true);
      UnstartedIsEmpty(toolStates, owner, Blocks());
      BufferExactly(toolStates, owner, Blocks(), toolIndex, flushed);
      OrderExtends(toolOrder, toolStates, toolIndex, flushed);
      toolStates := toolStates[toolIndex := state.(taskArgBuffer := "", taskArgsEmitted := true)];
    }

    /** The end of the message: no block is left open, and none is closed twice. */
    method CloseAllBlocks()
      requires Valid()
      modifies this`events, this`thinkingStarted, this`textStarted
      ensures Run(events) == Streaming(nextIndex, map[]) && Blocks() == old(Blocks())
    {
      hide OpenBlocks, ToolsOwn, IsOrderOf, OpenAmong, ToolBlocks, Run, Assemble;
      CloseContentBlocks();
      ghost var blocks := Blocks();
      OpenToolsOnly(thinkingIndex, textIndex, owner);
      OpenAmongAll(owner, toolOrder, toolStates, blocks);
      for k := 0 to |toolOrder|
        invariant Run(events) == Streaming(nextIndex, OpenAmong(owner, toolOrder[k..]))
        invariant Blocks() == blocks
      {
        OrderAt(toolOrder, toolStates, k);
        var state := toolStates[toolOrder[k]];
        OpenAmongNext(owner, toolOrder, toolStates, blocks, k);
        if state.started {
          Emit(BlockStop(state.blockIndex));
        }
      }
      OpenAmongNone(owner, toolOrder);
    }
  }

  ghost function OpenAmong(owner: map<int, int>, tools: seq<int>): map<int, DeltaKind> {
    map b | b in owner && owner[b] in tools :: InputJsonDelta
  }

  lemma OrderAt(order: seq<int>, tools: map<int, ToolCallState>, k: nat)
    requires IsOrderOf(order, tools) && k < |order|
    ensures order[k] in tools && order[k] !in order[..k]
  {
    assert order[k] in order;
  }

  lemma OpenAmongAll(owner: map<int, int>, order: seq<int>, tools: map<int, ToolCallState>, blocks: seq<Block>)
    requires IsOrderOf(order, tools) && ToolsOwn(tools, owner, blocks)
    ensures OpenAmong(owner, order[0..]) == ToolBlocks(owner)
  {
    assert order[0..] == order;
    assert forall t :: t in tools ==> t in order;
    forall b | b in owner ensures owner[b] in order[0..] { assert owner[b] in tools; }
    var open, all := OpenAmong(owner, order[0..]), ToolBlocks(owner);
    assert forall b :: b in open <==> b in all;
  }

  /** Stopping the block of the next tool, if it was started, leaves those of the later ones. */
  lemma OpenAmongNext(owner: map<int, int>, order: seq<int>, tools: map<int, ToolCallState>, blocks: seq<Block>, k: nat)
    requires IsOrderOf(order, tools) && ToolsOwn(tools, owner, blocks) && k < |order|
    requires order[k] in tools
    ensures var state, open := tools[order[k]], OpenAmong(owner, order[k..]);
            if state.started
            then state.blockIndex in open && open - {state.blockIndex} == OpenAmong(owner, order[k + 1..])
            else open == OpenAmong(owner, order[k + 1..])
  {
    CutOrder(order, tools, k);
    OwnsOne(tools, owner, blocks, order[k]);
    hide ToolsOwn, IsOrderOf;
    var open, next := OpenAmong(owner, order[k..]), OpenAmong(owner, order[k + 1..]);
    var state := tools[order[k]];
    assert forall b :: b in open <==> b in next || (state.started && b == state.blockIndex);
  }

  lemma CutOrder(order: seq<int>, tools: map<int, ToolCallState>, k: nat)
    requires IsOrderOf(order, tools) && k < |order|
    ensures forall t :: t in order[k..] <==> t == order[k] || t in order[k + 1..]
    ensures order[k] !in order[k + 1..]
  {
    assert order[k..] == [order[k]] + order[k + 1..];
  }

  lemma OwnsOne(tools: map<int, ToolCallState>, owner: map<int, int>, blocks: seq<Block>, t: int)
    requires ToolsOwn(tools, owner, blocks) && t in tools
    ensures forall b :: b in owner && owner[b] == t <==> tools[t].started && b == tools[t].blockIndex
  {
  }

  lemma OpenAmongNone(owner: map<int, int>, order: seq<int>)
    ensures OpenAmong(owner, order[|order|..]) == map[]
  {
  }

  /** Task arguments that were buffered and never completed. */
  predicate Pending(state: ToolCallState) {
    state.taskArgBuffer != "" && !state.taskArgsEmitted
  }

  function FlushState(state: ToolCallState): ToolCallState {
    if Pending(state) then state.(taskArgBuffer := "", taskArgsEmitted := true) else state
  }

  ghost function FlushedSome(tools: map<int, ToolCallState>, done: seq<int>): map<int, ToolCallState> {
    map t | t in tools :: if t in done then FlushState(tools[t]) else tools[t]
  }

  /** The first k tool calls have been seen to. */
  ghost predicate Flushing(before: map<int, ToolCallState>, order: seq<int>, k: nat, tools: map<int, ToolCallState>,
                           results: seq<(int, string)>, json: Json)
  {
    && k <= |order| && IsOrderOf(order, before)
    && tools == FlushedSome(before, order[..k])
    && FlushListOf(results, before, order[..k], json)
  }

  lemma FlushNothing(tools: map<int, ToolCallState>, json: Json)
    ensures forall order :: IsOrderOf(order, tools) ==> Flushing(tools, order, 0, tools, [], json)
  {
    assert FlushedSome(tools, []) == tools;
    assert forall order: seq<int> :: order[..0] == [];
  }

  lemma FlushStep(before: map<int, ToolCallState>, order: seq<int>, k: nat, tools: map<int, ToolCallState>,
                  results: seq<(int, string)>, json: Json)
    requires Flushing(before, order, k, tools, results, json) && k < |order|
    ensures var t := order[k];
            && t in tools
            && (!Pending(tools[t]) ==> Flushing(before, order, k + 1, tools, results, json))
            && (Pending(tools[t]) ==> Flushing(before, order, k + 1, tools[t := FlushState(tools[t])],
                                               results + [(t, FlushOut(json, tools[t].taskArgBuffer))], json))
  {
    var t := order[k];
    OrderAt(order, before, k);
    hide FlushState, FlushedSome, FlushListOf, IsOrderOf, Pending, FlushOut;
    assert order[..k + 1] == order[..k] + [t];
    FlushOne(before, order[..k], t);
    FlushEntry(results, before, order[..k], t, json);
  }

  lemma FlushOne(tools: map<int, ToolCallState>, done: seq<int>, t: int)
    requires t in tools && t !in done
    ensures t in FlushedSome(tools, done) && FlushedSome(tools, done)[t] == tools[t]
    ensures FlushedSome(tools, done + [t]) == FlushedSome(tools, done)[t := FlushState(tools[t])]
    ensures !Pending(tools[t]) ==> FlushedSome(tools, done + [t]) == FlushedSome(tools, done)
  {
  }

  lemma FlushEntry(results: seq<(int, string)>, tools: map<int, ToolCallState>, done: seq<int>, t: int, json: Json)
    requires FlushListOf(results, tools, done, json) && t in tools && t !in done
    ensures FlushListOf(if Pending(tools[t]) then results + [(t, FlushOut(json, tools[t].taskArgBuffer))] else results,
                        tools, done + [t], json)
  {
    var more := results + [(t, FlushOut(json, tools[t].taskArgBuffer))];
    assert FirstOf(more) == FirstOf(results) + [t];
  }

  lemma FlushEverything(before: map<int, ToolCallState>, order: seq<int>, tools: map<int, ToolCallState>,
                        results: seq<(int, string)>, json: Json)
    requires Flushing(before, order, |order|, tools, results, json)
    ensures FlushList(results, before, json)
    ensures tools == map t | t in before :: FlushState(before[t])
  {
    assert order[..|order|] == order;
    assert forall t :: t in before ==> t in order;
  }

  function FlushOut(json: Json, buffer: string): string {
    var parsed := json.loads(buffer);
    if parsed.Some? && parsed.value.Object? then json.dumps(Object(PatchTask(parsed.value.fields))) else "{}"
  }

  function FirstOf(results: seq<(int, string)>): seq<int> {
    seq(|results|, i requires 0 <= i < |results| => results[i].0)
  }

  /** One entry for each pending tool call among those in done, with what its buffer amounts to. */
  ghost predicate FlushListOf(results: seq<(int, string)>, tools: map<int, ToolCallState>, done: seq<int>, json: Json) {
    && (forall t :: t in FirstOf(results) <==> t in tools && t in done && Pending(tools[t]))
    && Distinct(FirstOf(results))
    && (forall i :: 0 <= i < |results| ==>
          results[i].0 in tools && results[i].1 == FlushOut(json, tools[results[i].0].taskArgBuffer))
  }

  /** One entry for each pending tool call, with what its buffer amounts to. */
  ghost predicate FlushList(results: seq<(int, string)>, tools: map<int, ToolCallState>, json: Json) {
    && (forall t :: t in FirstOf(results) <==> t in tools && Pending(tools[t]))
    && Distinct(FirstOf(results))
    && (forall i :: 0 <= i < |results| ==>
          results[i].0 in tools && results[i].1 == FlushOut(json, tools[results[i].0].taskArgBuffer))
  }
}
