/**
 * The text of a message, whatever else it shows: reasoning, native tool calls
 * and tool calls found in the text (providers/openai_compat.py).
 */
module ShownText {
  import opened Text
  import opened Protocol
  import opened Sse
  import opened TextStream
  import TP = ThinkParser
  import HP = HeuristicParser
  import HeuristicCalls

  // ----- The text of the blocks -----

  function TextOfBlock(block: Block): string {
    if block.kind == TextBlock then Concat(block.deltas) else ""
  }

  /** What the text blocks hold, in order. */
  function TextIn(blocks: seq<Block>): string {
    if blocks == [] then "" else TextIn(blocks[..|blocks| - 1]) + TextOfBlock(blocks[|blocks| - 1])
  }

  lemma TextInAppend(blocks: seq<Block>, block: Block)
    ensures TextIn(blocks + [block]) == TextIn(blocks) + TextOfBlock(block)
  {
    assert (blocks + [block])[..|blocks|] == blocks;
  }

  /** Content that is put at the end counts if it is text. */
  lemma TextInPut(blocks: seq<Block>, open: bool, kind: BlockKind, content: string)
    ensures TextIn(Put(blocks, open, kind, content)) == TextIn(blocks) + if kind == TextBlock then content else ""
  {
    if open && blocks != [] && blocks[|blocks| - 1].kind == kind {
      var n := |blocks| - 1;
      var grown := Block(kind, blocks[n].deltas + [content]);
      assert blocks == blocks[..n] + [blocks[n]] && AddDelta(blocks, n, content) == blocks[..n] + [grown];
      TextOfMore(blocks[n], content);
      hide TextIn, TextOfBlock, AddDelta;
      TextInAppend(blocks[..n], blocks[n]);
      TextInAppend(blocks[..n], grown);
      ConcatAssoc(TextIn(blocks[..n]), TextOfBlock(blocks[n]), if kind == TextBlock then content else "");
    } else {
      assert Concat([content]) == content + Concat([]) == content;
      hide TextIn;
      TextInAppend(blocks, Block(kind, [content]));
    }
  }

  lemma TextOfMore(block: Block, content: string)
    ensures TextOfBlock(Block(block.kind, block.deltas + [content]))
         == TextOfBlock(block) + if block.kind == TextBlock then content else ""
  {
    ConcatAppend(block.deltas, content);
  }

  /** Deltas of tool calls are no text. */
  lemma {:induction false} TextInDelta(blocks: seq<Block>, i: nat, content: string)
    requires i < |blocks| && blocks[i].kind != TextBlock
    ensures TextIn(AddDelta(blocks, i, content)) == TextIn(blocks)
    decreases |blocks|
  {
    var n := |blocks| - 1;
    if i < n {
      TextInDelta(blocks[..n], i, content);
      assert AddDelta(blocks, i, content)[..n] == AddDelta(blocks[..n], i, content);
    } else {
      assert AddDelta(blocks, i, content)[..n] == blocks[..n];
    }
  }

  lemma {:induction false} TextWithoutIds(blocks: seq<Block>)
    ensures TextIn(WithoutIds(blocks)) == TextIn(blocks)
  {
    if blocks != [] {
      var n := |blocks| - 1;
      TextWithoutIds(blocks[..n]);
      assert WithoutIds(blocks)[..n] == WithoutIds(blocks[..n]);
    }
  }

  lemma {:induction false} TextOfTools(blocks: seq<Block>, tools: seq<HP.ToolUse>, json: Json)
    ensures TextIn(blocks + WholeTools(tools, json)) == TextIn(blocks)
  {
    hide *;
    if tools == [] {
      NoTools(blocks, tools, json);
    } else {
      var n := |tools| - 1;
      TextOfTools(blocks, tools[..n], json);
      LastTool(blocks, tools, json);
      TextInAppend(blocks + WholeTools(tools[..n], json), WholeTool(tools[n], json));
    }
  }

  lemma NoTools(blocks: seq<Block>, tools: seq<HP.ToolUse>, json: Json)
    requires tools == []
    ensures blocks + WholeTools(tools, json) == blocks
  {
  }

  lemma LastTool(blocks: seq<Block>, tools: seq<HP.ToolUse>, json: Json)
    requires tools != []
    ensures var n := |tools| - 1;
            blocks + WholeTools(tools, json) == blocks + WholeTools(tools[..n], json) + [WholeTool(tools[n], json)]
    ensures TextOfBlock(WholeTool(tools[|tools| - 1], json)) == ""
  {
    hide ToolInput;
  }

  /** Tool calls found in text add none. */
  lemma ToolsAddNoText(before: seq<Block>, after: seq<Block>, tools: seq<HP.ToolUse>, json: Json)
    requires WithoutIds(after) == WithoutIds(before) + WholeTools(tools, json)
    ensures TextIn(after) == TextIn(before)
  {
    hide *;
    TextWithoutIds(before);
    TextWithoutIds(after);
    TextOfTools(WithoutIds(before), tools, json);
  }

  // ----- What the filter makes of the text chunks -----

  /** The filter after the text chunks, what it released and what it found. */
  function FedAll(parts: seq<TP.ContentChunk>): HP.Outcome {
    if parts == [] then HP.Outcome(HP.START, "", [])
    else FedOne(FedAll(parts[..|parts| - 1]), parts[|parts| - 1])
  }

  function FedOne(o: HP.Outcome, part: TP.ContentChunk): HP.Outcome {
    if part.kind == TP.THINKING then o else HP.Before(o.text, o.tools, HP.FeedMachine(o.m, part.content))
  }

  lemma FedOneMore(parts: seq<TP.ContentChunk>, part: TP.ContentChunk)
    ensures FedAll(parts + [part]) == FedOne(FedAll(parts), part)
  {
  }

  lemma {:induction false} FedMachine(parts: seq<TP.ContentChunk>, json: Json)
    ensures ShowAll(parts, json).m == FedAll(parts).m
  {
    if parts != [] {
      FedMachine(parts[..|parts| - 1], json);
      hide HP.FeedMachine, PutContent, PutTools, ShowAll, FedAll;
      PartMachine(ShowAll(parts[..|parts| - 1], json), FedAll(parts[..|parts| - 1]), parts[|parts| - 1], json);
      LastOf(parts, json);
    }
  }

  lemma LastOf(parts: seq<TP.ContentChunk>, json: Json)
    requires parts != []
    ensures ShowAll(parts, json) == ShowPart(ShowAll(parts[..|parts| - 1], json), parts[|parts| - 1], json)
    ensures FedAll(parts) == FedOne(FedAll(parts[..|parts| - 1]), parts[|parts| - 1])
  {
    hide ShowPart, FedOne;
  }

  lemma PartMachine(out: Shown, o: HP.Outcome, part: TP.ContentChunk, json: Json)
    requires out.m == o.m
    ensures ShowPart(out, part, json).m == FedOne(o, part).m
  {
    hide HP.FeedMachine;
  }

  // ----- Reasoning among the content -----

  /** What is shown, in order: a piece of reasoning, or a chunk of the content. */
  datatype Act = Reason(text: string) | Part(chunk: TP.ContentChunk)

  /** Reasoning is shown as a chunk of thinking is. */
  function ChunkOf(act: Act): TP.ContentChunk {
    match act case Reason(text) => TP.ContentChunk(TP.THINKING, text) case Part(chunk) => chunk
  }

  function ChunksIn(acts: seq<Act>): seq<TP.ContentChunk> {
    seq(|acts|, i requires 0 <= i < |acts| => ChunkOf(acts[i]))
  }

  function PartsIn(acts: seq<Act>): seq<TP.ContentChunk> {
    if acts == [] then []
    else
      var last := acts[|acts| - 1];
      PartsIn(acts[..|acts| - 1]) + if last.Part? then [last.chunk] else []
  }

  function ReasonsIn(acts: seq<Act>): seq<string> {
    if acts == [] then []
    else
      var last := acts[|acts| - 1];
      ReasonsIn(acts[..|acts| - 1]) + if last.Reason? then [last.text] else []
  }

  lemma OneMoreAct(acts: seq<Act>, act: Act)
    ensures ChunksIn(acts + [act]) == ChunksIn(acts) + [ChunkOf(act)]
    ensures PartsIn(acts + [act]) == PartsIn(acts) + if act.Part? then [act.chunk] else []
    ensures ReasonsIn(acts + [act]) == ReasonsIn(acts) + if act.Reason? then [act.text] else []
  {
    assert (acts + [act])[..|acts|] == acts;
  }

  function ShowActs(acts: seq<Act>, json: Json): Shown {
    ShowAll(ChunksIn(acts), json)
  }

  lemma ShowOneMoreAct(acts: seq<Act>, act: Act, json: Json)
    ensures ShowActs(acts + [act], json) == ShowPart(ShowActs(acts, json), ChunkOf(act), json)
  {
    OneMoreAct(acts, act);
    hide ShowAll, ShowPart;
    ShowOneMore(ChunksIn(acts), ChunkOf(act), json);
  }

  lemma ActsMachine(acts: seq<Act>, json: Json)
    ensures ShowActs(acts, json).m == FedAll(PartsIn(acts)).m
  {
    FedChunks(acts);
    FedMachine(ChunksIn(acts), json);
    hide FedAll, ShowAll;
  }

  /** Reasoning does not go through the filter. */
  lemma {:induction false} FedChunks(acts: seq<Act>)
    ensures FedAll(ChunksIn(acts)) == FedAll(PartsIn(acts))
  {
    if acts != [] {
      var (before, act) := (acts[..|acts| - 1], acts[|acts| - 1]);
      FedChunks(before);
      assert before + [act] == acts;
      hide FedAll, HP.FeedMachine;
      OneMoreAct(before, act);
      FedOneMore(ChunksIn(before), ChunkOf(act));
      if act.Part? { FedOneMore(PartsIn(before), act.chunk); } else { assert PartsIn(before) + [] == PartsIn(before); }
    }
  }

  /** Without reasoning, the chunks are the parts. */
  lemma {:induction false} OnlyParts(acts: seq<Act>)
    requires ReasonsIn(acts) == []
    ensures ChunksIn(acts) == PartsIn(acts)
  {
    if acts != [] {
      var (before, act) := (acts[..|acts| - 1], acts[|acts| - 1]);
      assert before + [act] == acts;
      OnlyParts(before);
      OneMoreAct(before, act);
    }
  }

  /** Plain content and any reasoning is shown as it is. */
  lemma {:induction false} PlainActs(acts: seq<Act>)
    requires (forall k :: 0 <= k < |PartsIn(acts)| ==> PlainPart(PartsIn(acts)[k]))
    requires forall k :: 0 <= k < |ReasonsIn(acts)| ==> ReasonsIn(acts)[k] != ""
    ensures forall k :: 0 <= k < |ChunksIn(acts)| ==> PlainPart(ChunksIn(acts)[k])
  {
    hide PlainPart;
    if acts != [] {
      var (before, act) := (acts[..|acts| - 1], acts[|acts| - 1]);
      assert before + [act] == acts;
      OneMoreAct(before, act);
      assert forall k :: 0 <= k < |PartsIn(before)| ==> PartsIn(acts)[k] == PartsIn(before)[k];
      assert forall k :: 0 <= k < |ReasonsIn(before)| ==> ReasonsIn(acts)[k] == ReasonsIn(before)[k];
      PlainActs(before);
      LastPlain(acts, act);
    }
  }

  lemma LastPlain(acts: seq<Act>, act: Act)
    requires acts != [] && act == acts[|acts| - 1]
    requires (forall k :: 0 <= k < |PartsIn(acts)| ==> PlainPart(PartsIn(acts)[k]))
    requires forall k :: 0 <= k < |ReasonsIn(acts)| ==> ReasonsIn(acts)[k] != ""
    ensures PlainPart(ChunkOf(act))
  {
    if act.Part? {
      assert PartsIn(acts)[|PartsIn(acts)| - 1] == act.chunk;
    } else {
      assert ReasonsIn(acts)[|ReasonsIn(acts)| - 1] == act.text;
    }
  }

  /** The text shown for these chunks; the last one bypasses the filter. */
  function ShownFor(parts: seq<TP.ContentChunk>, rest: Option<TP.ContentChunk>): string {
    FedAll(parts).text + TextInRest(rest)
  }

  function TextInRest(rest: Option<TP.ContentChunk>): string {
    if rest.Some? && rest.value.kind == TP.TEXT then rest.value.content else ""
  }

  // ----- Plain text -----

  /** The characters that are text. */
  function TextOf(typed: seq<TP.TypedChar>): string {
    if typed == [] then "" else (if typed[0].kind == TP.TEXT then [typed[0].c] else "") + TextOf(typed[1..])
  }

  lemma {:induction false} TextOfConcat(a: seq<TP.TypedChar>, b: seq<TP.TypedChar>)
    ensures TextOf(a + b) == TextOf(a) + TextOf(b)
  {
    if a == [] {
      assert a + b == b;
    } else {
      TextOfConcat(a[1..], b);
      assert (a + b)[1..] == a[1..] + b && (a + b)[0] == a[0];
      TextOfHead(a);
      TextOfHead(a + b);
      hide TextOf;
      ConcatAssoc(if a[0].kind == TP.TEXT then [a[0].c] else "", TextOf(a[1..]), TextOf(b));
    }
  }

  lemma TextOfHead(a: seq<TP.TypedChar>)
    requires a != []
    ensures TextOf(a) == (if a[0].kind == TP.TEXT then [a[0].c] else "") + TextOf(a[1..])
  {
  }

  lemma {:induction false} TextOfTyped(kind: TP.ContentType, s: string)
    ensures TextOf(TP.Typed(kind, s)) == if kind == TP.TEXT then s else ""
  {
    if s != "" {
      TextOfTyped(kind, s[1..]);
      assert TP.Typed(kind, s)[1..] == TP.Typed(kind, s[1..]);
    }
  }

  lemma {:induction false} FedPlain(parts: seq<TP.ContentChunk>)
    requires forall k :: 0 <= k < |parts| ==> PlainText(parts[k].content)
    ensures FedAll(parts).m == HP.START && FedAll(parts).text == TextOf(TP.Flat(parts))
  {
    if parts != [] {
      var (before, part) := (parts[..|parts| - 1], parts[|parts| - 1]);
      assert PlainText(part.content) && forall k :: 0 <= k < |before| ==> before[k] == parts[k];
      hide PlainText;
      FedPlain(before);
      assert before + [part] == parts;
      hide *;
      FedOneMore(before, part);
      PlainOne(FedAll(before), part);
      TP.FlatAppend(before, part);
      TextOfConcat(TP.Flat(before), TP.Typed(part.kind, part.content));
      TextOfTyped(part.kind, part.content);
    }
  }

  lemma PlainOne(o: HP.Outcome, part: TP.ContentChunk)
    requires o.m == HP.START && PlainText(part.content)
    ensures FedOne(o, part).m == HP.START && FedOne(o, part).text == o.text + if part.kind == TP.TEXT then part.content else ""
  {
    PlainPasses(o.m, part.content);
    hide HP.FeedMachine;
  }

  /** Plain text is shown as exactly the text characters of one scan. */
  lemma PlainTextShown(parts: seq<TP.ContentChunk>, rest: Option<TP.ContentChunk>, content: string)
    requires PartsOf(parts, rest, content) && PlainText(content)
    ensures ShownFor(parts, rest) == TextOf(TP.Scan(content, false))
  {
    PlainParts(parts, rest, content);
    hide TP.Scan, TP.Flat, TP.Waiting, PlainText, FedAll;
    FedPlain(parts);
    TextOfConcat(TP.Flat(parts), TP.Emitted(rest));
    if rest.Some? { TextOfTyped(rest.value.kind, rest.value.content); }
  }
}
