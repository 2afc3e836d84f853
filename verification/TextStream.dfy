/**
 * What a stream that is only content is turned into, as a function of the
 * chunks that the think parser hands out; and what this amounts to for ordinary
 * text and for a tool call written as text (providers/openai_compat.py).
 */
module TextStream {
  import opened Text
  import opened Protocol
  import opened Sse
  import TP = ThinkParser
  import HP = HeuristicParser
  import HeuristicCalls
  import HeuristicText

  // ----- Blocks as runs of typed characters -----

  function BlockFor(kind: TP.ContentType): BlockKind {
    match kind case TEXT => TextBlock case THINKING => ThinkingBlock
  }

  function CharsOf(block: Block): seq<TP.TypedChar> {
    match block.kind
    case TextBlock => TP.Typed(TP.TEXT, Concat(block.deltas))
    case ThinkingBlock => TP.Typed(TP.THINKING, Concat(block.deltas))
    case ToolBlock(_, _) => []
  }

  function BlockChars(blocks: seq<Block>): seq<TP.TypedChar> {
    if blocks == [] then [] else BlockChars(blocks[..|blocks| - 1]) + CharsOf(blocks[|blocks| - 1])
  }

  /** The blocks are the maximal runs of equal kind of these characters. */
  ghost predicate AreRunsOf(blocks: seq<Block>, typed: seq<TP.TypedChar>) {
    BlockChars(blocks) == typed && AreMaximal(blocks)
  }

  ghost predicate AreMaximal(blocks: seq<Block>) {
    && (forall i :: 0 <= i < |blocks| ==> !blocks[i].kind.ToolBlock? && CharsOf(blocks[i]) != [])
    && (forall i :: 0 < i < |blocks| ==> blocks[i - 1].kind != blocks[i].kind)
  }

  predicate HasText(typed: seq<TP.TypedChar>) {
    exists i :: 0 <= i < |typed| && typed[i].kind == TP.TEXT
  }

  /** A message without any text gets a single blank. */
  function WithFiller(typed: seq<TP.TypedChar>): seq<TP.TypedChar> {
    if HasText(typed) then typed else typed + TP.Typed(TP.TEXT, " ")
  }

  /** Content goes to the last block if that is of its kind, else to a new one. */
  function Extend(blocks: seq<Block>, kind: BlockKind, content: string): seq<Block> {
    if blocks != [] && blocks[|blocks| - 1].kind == kind
    then AddDelta(blocks, |blocks| - 1, content)
    else blocks + [Block(kind, [content])]
  }

  lemma {:induction false} ExtendRuns(blocks: seq<Block>, typed: seq<TP.TypedChar>, kind: TP.ContentType, content: string)
    requires AreRunsOf(blocks, typed) && content != ""
    ensures AreRunsOf(Extend(blocks, BlockFor(kind), content), typed + TP.Typed(kind, content))
  {
    if blocks != [] && blocks[|blocks| - 1].kind == BlockFor(kind) {
      GrowLast(blocks, typed, kind, content);
    } else {
      AddRun(blocks, typed, kind, content);
    }
  }

  lemma GrowLast(blocks: seq<Block>, typed: seq<TP.TypedChar>, kind: TP.ContentType, content: string)
    requires AreRunsOf(blocks, typed) && content != ""
    requires blocks != [] && blocks[|blocks| - 1].kind == BlockFor(kind)
    ensures AreRunsOf(AddDelta(blocks, |blocks| - 1, content), typed + TP.Typed(kind, content))
  {
    var n := |blocks| - 1;
    var grown := Block(blocks[n].kind, blocks[n].deltas + [content]);
    GrownChars(blocks[n], kind, content);
    ReplaceLast(blocks, grown);
    hide CharsOf, BlockChars, AreMaximal;
    var more := TP.Typed(kind, content);
    NotNone(CharsOf(blocks[n]), more);
    hide TP.Typed;
    SameMaximal(blocks, grown);
    JoinChars(BlockChars(blocks[..n]), CharsOf(blocks[n]), more);
  }

  lemma NotNone(a: seq<TP.TypedChar>, b: seq<TP.TypedChar>)
    requires b != []
    ensures a + b != []
  {
  }

  lemma JoinChars(a: seq<TP.TypedChar>, b: seq<TP.TypedChar>, c: seq<TP.TypedChar>)
    ensures a + (b + c) == a + b + c
  {
  }

  lemma SameMaximal(blocks: seq<Block>, last: Block)
    requires AreMaximal(blocks) && blocks != [] && last.kind == blocks[|blocks| - 1].kind && CharsOf(last) != []
    ensures AreMaximal(blocks[|blocks| - 1 := last])
  {
  }

  lemma AddRun(blocks: seq<Block>, typed: seq<TP.TypedChar>, kind: TP.ContentType, content: string)
    requires AreRunsOf(blocks, typed) && content != ""
    requires blocks != [] ==> blocks[|blocks| - 1].kind != BlockFor(kind)
    ensures AreRunsOf(blocks + [Block(BlockFor(kind), [content])], typed + TP.Typed(kind, content))
  {
    var begun := Block(BlockFor(kind), [content]);
    FreshChars(kind, content);
    assert (blocks + [begun])[..|blocks|] == blocks;
    assert BlockChars(blocks + [begun]) == BlockChars(blocks) + CharsOf(begun);
    hide CharsOf, BlockChars;
  }

  lemma GrownChars(block: Block, kind: TP.ContentType, content: string)
    requires block.kind == BlockFor(kind)
    ensures CharsOf(Block(block.kind, block.deltas + [content])) == CharsOf(block) + TP.Typed(kind, content)
  {
    ConcatAppend(block.deltas, content);
    TypedConcat(kind, Concat(block.deltas), content);
  }

  lemma FreshChars(kind: TP.ContentType, content: string)
    ensures CharsOf(Block(BlockFor(kind), [content])) == TP.Typed(kind, content)
  {
    assert Concat([content]) == content + Concat([]) == content;
  }

  lemma ReplaceLast(blocks: seq<Block>, last: Block)
    requires blocks != []
    ensures var more := blocks[|blocks| - 1 := last];
            BlockChars(more) == BlockChars(blocks[..|blocks| - 1]) + CharsOf(last)
    ensures BlockChars(blocks) == BlockChars(blocks[..|blocks| - 1]) + CharsOf(blocks[|blocks| - 1])
  {
    assert blocks[|blocks| - 1 := last][..|blocks| - 1] == blocks[..|blocks| - 1];
  }

  /** Maximal runs are unique, so two upstreams with the same content give the same blocks, however they are cut. */
  lemma {:induction false} RunsUnique(a: seq<Block>, b: seq<Block>, typed: seq<TP.TypedChar>)
    requires AreRunsOf(a, typed) && AreRunsOf(b, typed)
    ensures |a| == |b|
    ensures forall i :: 0 <= i < |a| ==> SameRun(a[i], b[i])
    decreases |a|
  {
    NoRuns(a, typed);
    NoRuns(b, typed);
    if a != [] {
      var rest := LastSame(a, b, typed);
      hide *;
      RunsUnique(a[..|a| - 1], b[..|b| - 1], rest);
      AllSame(a, b, a[..|a| - 1], b[..|b| - 1]);
    }
  }

  lemma AllSame(a: seq<Block>, b: seq<Block>, a': seq<Block>, b': seq<Block>)
    requires a != [] && |a| == |b| && SameRun(a[|a| - 1], b[|b| - 1])
    requires a' == a[..|a| - 1] && b' == b[..|b| - 1] && forall i :: 0 <= i < |a'| ==> SameRun(a'[i], b'[i])
    ensures forall i :: 0 <= i < |a| ==> SameRun(a[i], b[i])
  {
    hide SameRun;
    forall i | 0 <= i < |a| - 1 ensures SameRun(a[i], b[i]) {
      assert SameRun(a'[i], b'[i]);
    }
  }

  lemma LastSame(a: seq<Block>, b: seq<Block>, typed: seq<TP.TypedChar>) returns (rest: seq<TP.TypedChar>)
    requires AreRunsOf(a, typed) && AreRunsOf(b, typed) && a != [] && b != []
    ensures SameRun(a[|a| - 1], b[|b| - 1])
    ensures AreRunsOf(a[..|a| - 1], rest) && AreRunsOf(b[..|b| - 1], rest)
  {
    LastRun(a, typed);
    LastRun(b, typed);
    hide AreRunsOf, CharsOf, BlockChars;
    var len := |CharsOf(a[|a| - 1])|;
    SameLength(typed, len, |CharsOf(b[|b| - 1])|);
    hide IsLastRun;
    rest := typed[..|typed| - len];
  }

  predicate SameRun(a: Block, b: Block) {
    a.kind == b.kind && CharsOf(a) == CharsOf(b)
  }

  /** len is how far the last character's kind reaches back. */
  ghost predicate IsLastRun(typed: seq<TP.TypedChar>, len: nat) {
    && 0 < len <= |typed|
    && (forall i :: |typed| - len <= i < |typed| ==> typed[i].kind == typed[|typed| - 1].kind)
    && (len < |typed| ==> typed[|typed| - len - 1].kind != typed[|typed| - 1].kind)
  }

  lemma SameLength(typed: seq<TP.TypedChar>, a: nat, b: nat)
    requires IsLastRun(typed, a) && IsLastRun(typed, b)
    ensures a == b
  {
  }

  lemma NoRuns(blocks: seq<Block>, typed: seq<TP.TypedChar>)
    requires AreRunsOf(blocks, typed)
    ensures blocks == [] <==> typed == []
  {
  }

  /** The last run reaches back exactly to the last character of another kind. */
  lemma LastRun(blocks: seq<Block>, typed: seq<TP.TypedChar>)
    requires AreRunsOf(blocks, typed) && blocks != []
    ensures var n := |blocks| - 1;
            var len := |CharsOf(blocks[n])|;
            && IsLastRun(typed, len) && typed[|typed| - len..] == CharsOf(blocks[n])
            && blocks[n].kind == BlockFor(typed[|typed| - 1].kind)
            && AreRunsOf(blocks[..n], typed[..|typed| - len])
  {
    var n := |blocks| - 1;
    var (front, chars) := (BlockChars(blocks[..n]), CharsOf(blocks[n]));
    assert typed == front + chars;
    BlockIsOneKind(blocks[n]);
    if n > 0 {
      assert blocks[n - 1].kind != blocks[n].kind;
      LastCharOf(blocks[..n]);
    }
    hide CharsOf, BlockChars;
    JoinedRun(front, chars, typed);
  }

  lemma LastCharOf(blocks: seq<Block>)
    requires blocks != [] && AreMaximal(blocks)
    ensures var chars := BlockChars(blocks);
            chars != [] && BlockFor(chars[|chars| - 1].kind) == blocks[|blocks| - 1].kind
  {
    BlockIsOneKind(blocks[|blocks| - 1]);
    hide CharsOf;
  }

  lemma BlockIsOneKind(block: Block)
    requires !block.kind.ToolBlock? && CharsOf(block) != []
    ensures forall i :: 0 <= i < |CharsOf(block)| ==> BlockFor(CharsOf(block)[i].kind) == block.kind
  {
  }

  lemma JoinedRun(front: seq<TP.TypedChar>, chars: seq<TP.TypedChar>, typed: seq<TP.TypedChar>)
    requires typed == front + chars && chars != []
    requires forall i :: 0 <= i < |chars| ==> chars[i].kind == chars[|chars| - 1].kind
    requires front != [] ==> front[|front| - 1].kind != chars[|chars| - 1].kind
    ensures IsLastRun(typed, |chars|) && typed[|front|..] == chars && typed[..|front|] == front
    ensures typed[|typed| - 1] == chars[|chars| - 1]
  {
  }

  lemma TypedConcat(kind: TP.ContentType, a: string, b: string)
    ensures TP.Typed(kind, a + b) == TP.Typed(kind, a) + TP.Typed(kind, b)
  {
  }

  // ----- No character appears from nowhere -----

  ghost predicate TypedLacks(typed: seq<TP.TypedChar>, c: char) {
    forall i :: 0 <= i < |typed| ==> typed[i].c != c
  }

  lemma {:induction false} ScanLacks(s: string, inside: bool, c: char)
    requires Lacks(s, c)
    ensures TypedLacks(TP.Scan(s, inside), c)
    decreases |s|
  {
    if s == "" {
    } else if TP.CLOSE_TAG <= s {
      ScanLacks(s[|TP.CLOSE_TAG|..], false, c);
    } else if !inside && TP.OPEN_TAG <= s {
      ScanLacks(s[|TP.OPEN_TAG|..], true, c);
    } else {
      ScanLacks(s[1..], inside, c);
    }
  }

  lemma {:induction false} FlatLacks(chunks: seq<TP.ContentChunk>, c: char)
    requires TypedLacks(TP.Flat(chunks), c)
    ensures forall k :: 0 <= k < |chunks| ==> Lacks(chunks[k].content, c)
  {
    if chunks != [] {
      var head, rest := TP.Typed(chunks[0].kind, chunks[0].content), TP.Flat(chunks[1..]);
      assert forall i :: 0 <= i < |head| ==> TP.Flat(chunks)[i] == head[i];
      assert forall i :: 0 <= i < |head| ==> head[i].c == chunks[0].content[i];
      assert forall i :: 0 <= i < |rest| ==> TP.Flat(chunks)[|head| + i] == rest[i];
      FlatLacks(chunks[1..], c);
      assert forall k :: 1 <= k < |chunks| ==> chunks[k] == chunks[1..][k - 1];
    }
  }

  // ----- What is shown of the content -----

  /** Tool ids are random, so they are left out. */
  function WithoutId(block: Block): Block {
    match block.kind
    case ToolBlock(_, name) => Block(ToolBlock("", name), block.deltas)
    case _ => block
  }

  function WithoutIds(blocks: seq<Block>): seq<Block> {
    seq(|blocks|, i requires 0 <= i < |blocks| => WithoutId(blocks[i]))
  }

  /** The filter for tool calls, the blocks so far, and whether the last of them is still open. */
  datatype Shown = Shown(m: HP.Machine, blocks: seq<Block>, open: bool)

  const NOTHING_SHOWN := Shown(HP.START, [], false)

  function Put(blocks: seq<Block>, open: bool, kind: BlockKind, content: string): seq<Block> {
    if open then Extend(blocks, kind, content) else blocks + [Block(kind, [content])]
  }

  function PutContent(out: Shown, kind: BlockKind, content: string): Shown {
    out.(blocks := Put(out.blocks, out.open, kind, content), open := true)
  }

  /** Inputs found in text are strings; Task calls are kept in the foreground. */
  function ToolInput(tool: HP.ToolUse): JsonValue {
    var fields := map k | k in tool.input :: Str(tool.input[k]);
    Object(if tool.name == "Task" then PatchTask(fields) else fields)
  }

  function WholeTool(tool: HP.ToolUse, json: Json): Block {
    Block(ToolBlock("", tool.name), [json.dumps(ToolInput(tool))])
  }

  /**
   * A tool call found in text is shown under its name, with its parameters as
   * strings; one named Task with run_in_background set to false besides.
   */
  lemma ToolIsShown(tool: HP.ToolUse, json: Json) returns (fields: map<string, JsonValue>)
    ensures WholeTool(tool, json) == Block(ToolBlock("", tool.name), [json.dumps(Object(fields))])
    ensures tool.name != "Task" ==> fields.Keys == tool.input.Keys && forall k :: k in fields ==> fields[k] == Str(tool.input[k])
    ensures tool.name == "Task" ==>
              && fields.Keys == tool.input.Keys + {"run_in_background"} && fields["run_in_background"] == Bool(false)
              && forall k :: k in tool.input && k != "run_in_background" ==> fields[k] == Str(tool.input[k])
  {
    fields := ToolInput(tool).fields;
  }

  function WholeTools(tools: seq<HP.ToolUse>, json: Json): seq<Block> {
    seq(|tools|, i requires 0 <= i < |tools| => WholeTool(tools[i], json))
  }

  /** Each tool call found in the text is a block of its own, which ends the block before it. */
  function PutTools(out: Shown, tools: seq<HP.ToolUse>, json: Json): Shown {
    if tools == [] then out
    else out.(blocks := out.blocks + WholeTools(tools, json), open := false)
  }

  /** Thinking is shown as it is, text as the tool-call filter releases it. */
  function ShowPart(out: Shown, part: TP.ContentChunk, json: Json): Shown {
    if part.kind == TP.THINKING then PutContent(out, ThinkingBlock, part.content)
    else
      var o := HP.FeedMachine(out.m, part.content);
      var fed := out.(m := o.m);
      PutTools(if o.text != "" then PutContent(fed, TextBlock, o.text) else fed, o.tools, json)
  }

  function ShowAll(parts: seq<TP.ContentChunk>, json: Json): Shown {
    if parts == [] then NOTHING_SHOWN else ShowPart(ShowAll(parts[..|parts| - 1], json), parts[|parts| - 1], json)
  }

  predicate HasTextBlock(blocks: seq<Block>) {
    exists i :: 0 <= i < |blocks| && blocks[i].kind == TextBlock
  }

  /** The last chunk bypasses the filter; then comes the filter's last tool call. */
  function ShowRest(out: Shown, rest: Option<TP.ContentChunk>, json: Json): Shown {
    var more := if rest.Some? then PutContent(out, BlockFor(rest.value.kind), rest.value.content) else out;
    PutTools(more, HP.FlushMachine(out.m).1, json)
  }

  /** A message without a text block gets a single blank. */
  function ShowBlank(out: Shown): Shown {
    if HasTextBlock(out.blocks) then out else PutContent(out, TextBlock, " ")
  }

  predicate NoneEmpty(parts: seq<TP.ContentChunk>) {
    forall k :: 0 <= k < |parts| ==> parts[k].content != ""
  }

  /** Chunks as the think parser makes them of the content; at most a cut tag is left to the end. */
  ghost predicate PartsOf(parts: seq<TP.ContentChunk>, rest: Option<TP.ContentChunk>, content: string) {
    && TP.Flat(parts) + TP.Emitted(rest) == TP.Scan(content, false)
    && NoneEmpty(parts)
    && (rest.Some? ==> rest.value.content != "" && exists inside :: TP.Waiting(rest.value.content, inside))
  }

  /** The blocks show the content, by way of these chunks. */
  ghost predicate Shows(blocks: seq<Block>, parts: seq<TP.ContentChunk>, rest: Option<TP.ContentChunk>,
                        content: string, json: Json) {
    && WithoutIds(blocks) == ShowBlank(ShowRest(ShowAll(parts, json), rest, json)).blocks
    && PartsOf(parts, rest, content)
  }

  // ----- Laws the translator needs -----

  lemma PutKeeps(blocks: seq<Block>, open: bool, kind: BlockKind, content: string)
    requires kind == TextBlock || kind == ThinkingBlock
    ensures WithoutIds(Put(blocks, open, kind, content)) == Put(WithoutIds(blocks), open, kind, content)
    ensures HasTextBlock(Put(WithoutIds(blocks), open, kind, content)) <==> HasTextBlock(WithoutIds(blocks)) || kind == TextBlock
  {
    var (bare, put) := (WithoutIds(blocks), Put(WithoutIds(blocks), open, kind, content));
    assert put[|put| - 1].kind == kind;
    assert forall i :: 0 <= i < |bare| ==> put[i].kind == bare[i].kind;
    if HasTextBlock(bare) {
      var i :| 0 <= i < |bare| && bare[i].kind == TextBlock;
      assert put[i].kind == TextBlock;
    }
  }

  lemma NoToolsYet(blocks: seq<Block>, tools: seq<HP.ToolUse>, json: Json)
    ensures WithoutIds(blocks) == WithoutIds(blocks) + WholeTools(tools[..0], json)
  {
  }

  lemma OneMoreTool(before: seq<Block>, blocks: seq<Block>, tools: seq<HP.ToolUse>, k: nat, id: string, json: Json)
    requires k < |tools| && WithoutIds(blocks) == WithoutIds(before) + WholeTools(tools[..k], json)
    ensures WithoutIds(blocks + [Block(ToolBlock(id, tools[k].name), [json.dumps(ToolInput(tools[k]))])])
         == WithoutIds(before) + WholeTools(tools[..k + 1], json)
  {
    hide ToolInput;
    var more := blocks + [Block(ToolBlock(id, tools[k].name), [json.dumps(ToolInput(tools[k]))])];
    assert WithoutIds(more) == WithoutIds(blocks) + [WholeTool(tools[k], json)];
    assert WholeTools(tools[..k + 1], json) == WholeTools(tools[..k], json) + [WholeTool(tools[k], json)];
  }

  lemma ToolsAreNoText(blocks: seq<Block>, tools: seq<HP.ToolUse>, json: Json)
    ensures HasTextBlock(blocks + WholeTools(tools, json)) <==> HasTextBlock(blocks)
    ensures tools == [] ==> blocks + WholeTools(tools, json) == blocks
  {
    var all := blocks + WholeTools(tools, json);
    assert forall i :: 0 <= i < |all| ==> all[i] == if i < |blocks| then blocks[i] else WholeTools(tools, json)[i - |blocks|];
    if HasTextBlock(blocks) {
      var i :| 0 <= i < |blocks| && blocks[i].kind == TextBlock;
      assert all[i].kind == TextBlock;
    }
  }

  lemma FedParts(content: string, parts: seq<TP.ContentChunk>, buf: string, mode: bool, text: string,
                 chunks: seq<TP.ContentChunk>, buf': string, mode': bool)
    requires TP.Advances(content, false, TP.Flat(parts), buf, mode) && TP.Advances(buf + text, mode, TP.Flat(chunks), buf', mode')
    requires NoneEmpty(parts) && forall k :: 0 <= k < |chunks| ==> chunks[k].content != ""
    ensures TP.Advances(content + text, false, TP.Flat(parts + chunks), buf', mode') && NoneEmpty(parts + chunks)
  {
    hide TP.Advances, TP.Flat;
    TP.AdvancesAppend(content, false, TP.Flat(parts), buf, mode, text);
    TP.AdvancesTrans(content + text, false, TP.Flat(parts), buf + text, mode, TP.Flat(chunks), buf', mode');
    TP.FlatConcat(parts, chunks);
  }

  lemma ShowOneMore(parts: seq<TP.ContentChunk>, part: TP.ContentChunk, json: Json)
    ensures ShowAll(parts + [part], json) == ShowPart(ShowAll(parts, json), part, json)
  {
  }

  /** What the flush hands out completes the scan. */
  lemma LastPart(content: string, parts: seq<TP.ContentChunk>, buf: string, mode: bool)
    requires TP.Advances(content, false, TP.Flat(parts), buf, mode) && NoneEmpty(parts) && TP.Waiting(buf, mode)
    ensures forall rest: Option<TP.ContentChunk> ::
              TP.Emitted(rest) == TP.Scan(buf, mode) && (rest.Some? ==> rest.value.content == buf != "")
              ==> PartsOf(parts, rest, content)
  {
    assert TP.AdvancesOn(content, false, TP.Flat(parts), buf, mode, "");
    assert content + "" == content && buf + "" == buf;
    hide TP.Scan, TP.Flat, TP.Advances;
  }

  // ----- Ordinary text -----

  ghost predicate PlainText(s: string) {
    Lacks(s, HP.BULLET) && Lacks(s, '|')
  }

  /** The filter is idle and the blocks are the runs of these characters. */
  ghost predicate ShownPlain(out: Shown, typed: seq<TP.TypedChar>) {
    out.m == HP.START && AreRunsOf(out.blocks, typed) && (out.open <==> out.blocks != [])
  }

  lemma PutPlain(out: Shown, typed: seq<TP.TypedChar>, kind: TP.ContentType, content: string)
    requires ShownPlain(out, typed) && content != ""
    ensures ShownPlain(PutContent(out, BlockFor(kind), content), typed + TP.Typed(kind, content))
  {
    ExtendRuns(out.blocks, typed, kind, content);
  }

  /** A chunk that is shown as it is: thinking, or plain text. */
  ghost predicate PlainPart(part: TP.ContentChunk) {
    part.content != "" && (part.kind == TP.TEXT ==> PlainText(part.content))
  }

  lemma {:induction false} AllPlainParts(parts: seq<TP.ContentChunk>, json: Json)
    requires forall k :: 0 <= k < |parts| ==> PlainPart(parts[k])
    ensures ShownPlain(ShowAll(parts, json), TP.Flat(parts))
  {
    hide *;
    if parts == [] {
      NothingShown(json);
    } else {
      var (before, part) := (parts[..|parts| - 1], parts[|parts| - 1]);
      assert before + [part] == parts;
      assert forall k :: 0 <= k < |before| ==> before[k] == parts[k];
      AllPlainParts(before, json);
      OneMorePlain(before, part, json);
    }
  }

  lemma OneMorePlain(before: seq<TP.ContentChunk>, part: TP.ContentChunk, json: Json)
    requires ShownPlain(ShowAll(before, json), TP.Flat(before)) && PlainPart(part)
    ensures ShownPlain(ShowAll(before + [part], json), TP.Flat(before + [part]))
  {
    hide ShownPlain, ShowAll, ShowPart, TP.Flat, PlainPart;
    OnePlainPart(ShowAll(before, json), TP.Flat(before), part, json);
    ShowOneMore(before, part, json);
    TP.FlatAppend(before, part);
  }

  lemma NothingShown(json: Json)
    ensures ShownPlain(ShowAll([], json), TP.Flat([]))
  {
  }

  lemma OnePlainPart(out: Shown, typed: seq<TP.TypedChar>, part: TP.ContentChunk, json: Json)
    requires ShownPlain(out, typed) && PlainPart(part)
    ensures ShownPlain(ShowPart(out, part, json), typed + TP.Typed(part.kind, part.content))
  {
    PutPlain(out, typed, part.kind, part.content);
    if part.kind == TP.TEXT { PlainPasses(out.m, part.content); }
    hide HP.FeedMachine, PlainText, AreRunsOf, PutContent;
  }

  lemma PlainPasses(m: HP.Machine, text: string)
    requires m == HP.START && PlainText(text)
    ensures HP.FeedMachine(m, text) == HP.Outcome(m, text, [])
  {
    HeuristicText.PlainTextPasses(m, text);
  }

  lemma {:induction false} RunsHaveText(blocks: seq<Block>)
    requires forall i :: 0 <= i < |blocks| ==> !blocks[i].kind.ToolBlock? && CharsOf(blocks[i]) != []
    ensures HasTextBlock(blocks) <==> HasText(BlockChars(blocks))
  {
    if blocks != [] {
      var (before, last) := (blocks[..|blocks| - 1], blocks[|blocks| - 1]);
      assert BlockChars(blocks) == BlockChars(before) + CharsOf(last);
      OneKind(last);
      hide CharsOf, BlockChars, HasText, HasTextBlock;
      RunsHaveText(before);
      HasTextIn(BlockChars(before), CharsOf(last));
      HasBlockIn(before, last);
      assert before + [last] == blocks;
    }
  }

  lemma OneKind(block: Block)
    requires !block.kind.ToolBlock? && CharsOf(block) != []
    ensures HasText(CharsOf(block)) <==> block.kind == TextBlock
  {
    assert CharsOf(block)[0].kind == TP.TEXT <==> block.kind == TextBlock;
  }

  lemma HasTextIn(a: seq<TP.TypedChar>, b: seq<TP.TypedChar>)
    ensures HasText(a + b) <==> HasText(a) || HasText(b)
  {
    assert forall i :: 0 <= i < |a| ==> (a + b)[i] == a[i];
    assert forall i :: 0 <= i < |b| ==> (a + b)[|a| + i] == b[i];
    if HasText(b) {
      var i :| 0 <= i < |b| && b[i].kind == TP.TEXT;
      assert (a + b)[|a| + i].kind == TP.TEXT;
    }
    if HasText(a) {
      var i :| 0 <= i < |a| && a[i].kind == TP.TEXT;
      assert (a + b)[i].kind == TP.TEXT;
    }
    if HasText(a + b) {
      var i :| 0 <= i < |a + b| && (a + b)[i].kind == TP.TEXT;
      if i >= |a| { assert b[i - |a|].kind == TP.TEXT; }
    }
  }

  lemma HasBlockIn(before: seq<Block>, last: Block)
    ensures HasTextBlock(before + [last]) <==> HasTextBlock(before) || last.kind == TextBlock
  {
    var all := before + [last];
    assert all[|before|] == last;
    if HasTextBlock(before) {
      var i :| 0 <= i < |before| && before[i].kind == TextBlock;
      assert all[i].kind == TextBlock;
    }
  }

  /** Chunks that are shown as they are: the blocks are the maximal runs of their characters, with a blank if none is text. */
  lemma RunsShown(blocks: seq<Block>, chunks: seq<TP.ContentChunk>, rest: Option<TP.ContentChunk>, json: Json)
    requires WithoutIds(blocks) == ShowBlank(ShowRest(ShowAll(chunks, json), rest, json)).blocks
    requires (forall k :: 0 <= k < |chunks| ==> PlainPart(chunks[k])) && (rest.Some? ==> rest.value.content != "")
    ensures AreRunsOf(blocks, WithFiller(TP.Flat(chunks) + TP.Emitted(rest)))
  {
    AllPlainParts(chunks, json);
    HeuristicText.StripNothing("");
    hide TP.Flat, ShowAll, AreRunsOf, PlainPart, Lacks;
    var (out, typed) := (ShowAll(chunks, json), TP.Flat(chunks) + TP.Emitted(rest));
    var ended := ShowRest(out, rest, json);
    if rest.Some? {
      PutPlain(out, TP.Flat(chunks), rest.value.kind, rest.value.content);
    } else {
      assert TP.Flat(chunks) + [] == TP.Flat(chunks);
    }
    assert ShownPlain(ended, typed);
    EndsPlain(blocks, ended, typed);
  }

  /**
   * Content without a bullet or a bar is shown as exactly the maximal runs of
   * its one-pass think-tag scan, with a blank if it has no text.
   */
  lemma PlainShown(blocks: seq<Block>, parts: seq<TP.ContentChunk>, rest: Option<TP.ContentChunk>, content: string, json: Json)
    requires Shows(blocks, parts, rest, content, json) && PlainText(content)
    ensures AreRunsOf(blocks, WithFiller(TP.Scan(content, false)))
  {
    PlainParts(parts, rest, content);
    hide TP.Scan, TP.Flat, TP.Waiting, ShowAll, AreRunsOf, PlainText, Lacks, ShowBlank, ShowRest, WithFiller;
    RunsShown(blocks, parts, rest, json);
  }

  lemma EndsPlain(blocks: seq<Block>, ended: Shown, typed: seq<TP.TypedChar>)
    requires WithoutIds(blocks) == ShowBlank(ended).blocks && ShownPlain(ended, typed)
    ensures AreRunsOf(blocks, WithFiller(typed))
  {
    var runs := ShowBlank(ended).blocks;
    RunsHaveText(ended.blocks);
    PutPlain(ended, typed, TP.TEXT, " ");
    assert AreRunsOf(runs, WithFiller(typed)) by {
      hide AreRunsOf, PutContent, HasText, HasTextBlock;
    }
    NoIds(blocks, runs, WithFiller(typed));
  }

  lemma NoIds(blocks: seq<Block>, runs: seq<Block>, typed: seq<TP.TypedChar>)
    requires WithoutIds(blocks) == runs && AreRunsOf(runs, typed)
    ensures blocks == runs
  {
  }

  lemma PlainParts(parts: seq<TP.ContentChunk>, rest: Option<TP.ContentChunk>, content: string)
    requires PartsOf(parts, rest, content) && PlainText(content)
    ensures forall k :: 0 <= k < |parts| ==> PlainText(parts[k].content)
  {
    LackParts(parts, rest, content, HP.BULLET);
    LackParts(parts, rest, content, '|');
  }

  lemma LackParts(parts: seq<TP.ContentChunk>, rest: Option<TP.ContentChunk>, content: string, c: char)
    requires PartsOf(parts, rest, content) && Lacks(content, c)
    ensures forall k :: 0 <= k < |parts| ==> Lacks(parts[k].content, c)
  {
    hide TP.Scan, TP.Flat, TP.Waiting;
    ScanLacks(content, false, c);
    assert forall i :: 0 <= i < |TP.Flat(parts)| ==> TP.Scan(content, false)[i] == TP.Flat(parts)[i];
    FlatLacks(parts, c);
  }
}
