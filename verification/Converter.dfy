/**
 * Assistant messages on their way to an OpenAI-style backend
 * (providers/common/message_converter.py): the printer that the think parser undoes.
 */
module Converter {
  import opened Text
  import opened Sse
  import TP = ThinkParser

  datatype ContentBlock =
    | TextPart(text: string)
    | ThinkingPart(thinking: string)
    | ToolUsePart(id: string, name: string, input: JsonValue)
    | OtherPart

  datatype FunctionCall = FunctionCall(id: string, name: string, arguments: string)

  datatype AssistantMessage = AssistantMessage(
    content: string,
    toolCalls: seq<FunctionCall>,
    reasoning: Option<string>)

  const SEPARATOR := "\n\n"

  // ----- What the message must hold -----

  /** The blocks that go into the content. */
  function Written(blocks: seq<ContentBlock>): seq<ContentBlock> {
    if blocks == [] then []
    else
      var (earlier, last) := (Written(blocks[..|blocks| - 1]), blocks[|blocks| - 1]);
      if last.TextPart? || last.ThinkingPart? then earlier + [last] else earlier
  }

  function PartText(block: ContentBlock): string {
    match block
    case TextPart(text) => text
    case ThinkingPart(thinking) => TP.OPEN_TAG + "\n" + thinking + "\n" + TP.CLOSE_TAG
    case _ => ""
  }

  function PartTexts(blocks: seq<ContentBlock>): seq<string> {
    seq(|blocks|, i requires 0 <= i < |blocks| => PartText(blocks[i]))
  }

  function ContentText(blocks: seq<ContentBlock>): string {
    Join(SEPARATOR, PartTexts(Written(blocks)))
  }

  function Thinkings(blocks: seq<ContentBlock>): seq<string> {
    if blocks == [] then []
    else
      var (earlier, last) := (Thinkings(blocks[..|blocks| - 1]), blocks[|blocks| - 1]);
      if last.ThinkingPart? then earlier + [last.thinking] else earlier
  }

  function Calls(blocks: seq<ContentBlock>, json: Json, show: JsonValue -> string): seq<FunctionCall> {
    if blocks == [] then []
    else
      var (earlier, last) := (Calls(blocks[..|blocks| - 1], json, show), blocks[|blocks| - 1]);
      if last.ToolUsePart? then
        earlier + [FunctionCall(last.id, last.name, if last.input.Object? then json.dumps(last.input) else show(last.input))]
      else earlier
  }

  lemma LastWritten(blocks: seq<ContentBlock>)
    requires blocks != []
    ensures var n := |blocks| - 1;
            Written(blocks) == if blocks[n].TextPart? || blocks[n].ThinkingPart? then Written(blocks[..n]) + [blocks[n]] else Written(blocks[..n])
  {
  }

  /** They are the text and thinking blocks, each once and in their order. */
  lemma {:induction false} WrittenAre(blocks: seq<ContentBlock>) returns (at: seq<nat>)
    ensures |at| == |Written(blocks)| && Increasing(at, |blocks|)
    ensures forall k :: 0 <= k < |at| ==> Written(blocks)[k] == blocks[at[k]]
    ensures forall i :: 0 <= i < |blocks| ==> (i in at <==> blocks[i].TextPart? || blocks[i].ThinkingPart?)
  {
    at := [];
    if blocks != [] {
      var n := |blocks| - 1;
      var before := blocks[..n];
      at := WrittenAre(before);
      OneMoreAt(at, n);
      LastWritten(blocks);
      assert forall i :: 0 <= i < n ==> before[i] == blocks[i];
      hide Written, Increasing;
      if blocks[n].TextPart? || blocks[n].ThinkingPart? { at := at + [n]; }
    }
  }

  lemma LastThinkings(blocks: seq<ContentBlock>)
    requires blocks != []
    ensures var n := |blocks| - 1;
            Thinkings(blocks) == if blocks[n].ThinkingPart? then Thinkings(blocks[..n]) + [blocks[n].thinking] else Thinkings(blocks[..n])
  {
  }

  lemma {:induction false} ThinkingsAre(blocks: seq<ContentBlock>) returns (at: seq<nat>)
    ensures |at| == |Thinkings(blocks)| && Increasing(at, |blocks|)
    ensures forall k :: 0 <= k < |at| ==> blocks[at[k]] == ThinkingPart(Thinkings(blocks)[k])
    ensures forall i :: 0 <= i < |blocks| ==> (i in at <==> blocks[i].ThinkingPart?)
  {
    at := [];
    if blocks != [] {
      var n := |blocks| - 1;
      var before := blocks[..n];
      at := ThinkingsAre(before);
      OneMoreAt(at, n);
      LastThinkings(blocks);
      assert forall i :: 0 <= i < n ==> before[i] == blocks[i];
      hide Thinkings, Increasing;
      if blocks[n].ThinkingPart? { at := at + [n]; }
    }
  }

  /** One call for each tool-use block, in their order, with its id, its name and its input as text. */
  lemma {:induction false} CallsAre(blocks: seq<ContentBlock>, json: Json, show: JsonValue -> string) returns (at: seq<nat>)
    ensures |at| == |Calls(blocks, json, show)| && Increasing(at, |blocks|)
    ensures forall i :: 0 <= i < |blocks| ==> (i in at <==> blocks[i].ToolUsePart?)
    ensures forall k :: 0 <= k < |at| ==>
              && blocks[at[k]].ToolUsePart?
              && var (block, call) := (blocks[at[k]], Calls(blocks, json, show)[k]);
              && call.id == block.id && call.name == block.name
              && call.arguments == if block.input.Object? then json.dumps(block.input) else show(block.input)
  {
    at := [];
    if blocks != [] {
      var n := |blocks| - 1;
      var before := blocks[..n];
      at := CallsAre(before, json, show);
      OneMoreAt(at, n);
      assert forall i :: 0 <= i < n ==> before[i] == blocks[i];
      hide Increasing;
      if blocks[n].ToolUsePart? { at := at + [n]; }
    }
  }

  /** What is written of the blocks, with blank lines between: text as it is, thinking in its tags on lines of its own. */
  lemma ContentIs(blocks: seq<ContentBlock>) returns (texts: seq<string>)
    ensures ContentText(blocks) == Join("\n\n", texts) && |texts| == |Written(blocks)|
    ensures forall k :: 0 <= k < |texts| ==>
              match Written(blocks)[k]
              case TextPart(text) => texts[k] == text
              case ThinkingPart(thinking) => texts[k] == "<think>" + "\n" + thinking + "\n" + "</think>"
              case _ => false
  {
    WrittenParts(blocks);
    texts := PartTexts(Written(blocks));
  }

  /** The content of the message: never empty unless there are tool calls. */
  function SentText(blocks: seq<ContentBlock>): string {
    if ContentText(blocks) == "" && (forall i :: 0 <= i < |blocks| ==> !blocks[i].ToolUsePart?) then " " else ContentText(blocks)
  }

  lemma {:induction false} NoCalls(blocks: seq<ContentBlock>, json: Json, show: JsonValue -> string)
    ensures Calls(blocks, json, show) == [] <==> forall i :: 0 <= i < |blocks| ==> !blocks[i].ToolUsePart?
  {
    if blocks != [] {
      var n := |blocks| - 1;
      NoCalls(blocks[..n], json, show);
      assert forall i :: 0 <= i < n ==> blocks[..n][i] == blocks[i];
    }
  }

  /** Thinking and text stay interleaved in order; the content is blank rather than empty when nothing else is sent. */
  method ConvertAssistantMessage(blocks: seq<ContentBlock>, includeReasoning: bool, json: Json, show: JsonValue -> string)
    returns (msg: AssistantMessage)
    ensures msg.content == SentText(blocks)
    ensures ContentText(blocks) != "" || msg.toolCalls != [] ==> msg.content == ContentText(blocks)
    ensures ContentText(blocks) == "" && msg.toolCalls == [] ==> msg.content == " "
    ensures msg.toolCalls == Calls(blocks, json, show)
    ensures msg.reasoning ==
              if includeReasoning && Thinkings(blocks) != [] then Some(Join("\n", Thinkings(blocks))) else None
  {
    var contentParts: seq<string> := [];
    var thinkingParts: seq<string> := [];
    var toolCalls: seq<FunctionCall> := [];
    assert blocks[..0] == [];
    for k := 0 to |blocks|
      invariant contentParts == PartTexts(Written(blocks[..k]))
      invariant thinkingParts == if includeReasoning then Thinkings(blocks[..k]) else []
      invariant toolCalls == Calls(blocks[..k], json, show)
    {
      assert blocks[..k + 1][..k] == blocks[..k];
      match blocks[k] {
        case TextPart(text) =>
          contentParts := contentParts + [text];
        case ThinkingPart(thinking) =>
          contentParts := contentParts + [TP.OPEN_TAG + "\n" + thinking + "\n" + TP.CLOSE_TAG];
          if includeReasoning {
            thinkingParts := thinkingParts + [thinking];
          }
        case ToolUsePart(id, name, input) =>
          toolCalls := toolCalls + [FunctionCall(id, name, if input.Object? then json.dumps(input) else show(input))];
        case OtherPart =>
      }
    }
    assert blocks[..|blocks|] == blocks;
    NoCalls(blocks, json, show);
    var content := Join(SEPARATOR, contentParts);
    if content == "" && toolCalls == [] {
      content := " ";
    }
    msg := AssistantMessage(content, toolCalls,
      if includeReasoning && thinkingParts != [] then Some(Join("\n", thinkingParts)) else None);
  }

  // ----- Reading it back -----

  ghost predicate NoTag(s: string, inside: bool) {
    forall tag: string, i :: TP.IsTag(tag, inside) ==> !OccursAt(s, tag, i)
  }

  /** Text without think tags, thinking without a closing tag. */
  ghost predicate Clean(blocks: seq<ContentBlock>) {
    forall i :: 0 <= i < |blocks| ==>
      && (blocks[i].TextPart? ==> NoTag(blocks[i].text, false))
      && (blocks[i].ThinkingPart? ==> NoTag(blocks[i].thinking, true))
  }

  function PartChars(block: ContentBlock): seq<TP.TypedChar> {
    match block
    case TextPart(text) => TP.Typed(TP.TEXT, text)
    case ThinkingPart(thinking) => TP.Typed(TP.THINKING, "\n" + thinking + "\n")
    case _ => []
  }

  /** The blocks in order, each as its own kind, with blank lines of text between them. */
  function Recovered(blocks: seq<ContentBlock>): seq<TP.TypedChar> {
    if blocks == [] then []
    else if |blocks| == 1 then PartChars(blocks[0])
    else PartChars(blocks[0]) + TP.Typed(TP.TEXT, SEPARATOR) + Recovered(blocks[1..])
  }

  /** Tag-free text followed by a newline, or by nothing, is scanned on its own. */
  lemma ScanClean(t: string, rest: string, inside: bool)
    requires NoTag(t, inside) && (rest == "" || rest[0] == '\n')
    ensures TP.Scan(t + rest, inside) == TP.Typed(TP.KindOf(inside), t) + TP.Scan(rest, inside)
  {
    forall tag: string, i | TP.IsTag(tag, inside) && 0 <= i < |t|
      ensures !OccursAt(t + rest, tag, i)
    {
      assert forall k :: 0 <= k < |tag| ==> tag[k] != '\n';
      assert !OccursAt(t, tag, i);
      if i + |tag| <= |t| {
        assert (t + rest)[i..i + |tag|] == t[i..i + |tag|];
      } else if i + |tag| <= |t + rest| {
        assert (t + rest)[i..i + |tag|][|t| - i] == rest[0];
      }
    }
    TP.ScanPlain(t, rest, inside);
  }

  lemma ScanNewline(rest: string, inside: bool)
    ensures TP.Scan("\n" + rest, inside) == TP.Typed(TP.KindOf(inside), "\n") + TP.Scan(rest, inside)
  {
    var s := "\n" + rest;
    assert s[0] == '\n' && s[1..] == rest;
    assert TP.CLOSE_TAG[0] == TP.OPEN_TAG[0] == '<';
    assert TP.Typed(TP.KindOf(inside), "\n") == [TP.TypedChar(TP.KindOf(inside), '\n')];
  }

  lemma ScanPart(block: ContentBlock, rest: string)
    requires block.TextPart? || block.ThinkingPart?
    requires Clean([block]) && (rest == "" || rest[0] == '\n')
    ensures TP.Scan(PartText(block) + rest, false) == PartChars(block) + TP.Scan(rest, false)
  {
    assert [block][0] == block;
    hide TP.Scan, TP.Typed;
    if block.TextPart? {
      ScanClean(block.text, rest, false);
    } else {
      ScanThinking(block.thinking, rest);
      Reassociated(TP.OPEN_TAG, block.thinking, TP.CLOSE_TAG, rest);
    }
  }

  lemma Reassociated(open: string, t: string, close: string, rest: string)
    ensures open + "\n" + t + "\n" + close + rest == open + ("\n" + (t + ("\n" + (close + rest))))
  {
    assert "\n" + close + rest == "\n" + (close + rest);
    assert t + "\n" + close + rest == t + ("\n" + (close + rest));
    assert "\n" + t + "\n" + close + rest == "\n" + (t + ("\n" + (close + rest)));
  }

  lemma ScanThinking(t: string, rest: string)
    requires NoTag(t, true)
    ensures TP.Scan(TP.OPEN_TAG + ("\n" + (t + ("\n" + (TP.CLOSE_TAG + rest)))), false)
         == TP.Typed(TP.THINKING, "\n" + t + "\n") + TP.Scan(rest, false)
  {
    hide TP.Scan;
    var close := TP.CLOSE_TAG + rest;
    var inner := "\n" + (t + ("\n" + close));
    TP.ScanTag(TP.OPEN_TAG + inner, false, TP.OPEN_TAG, inner);
    ScanNewline(t + ("\n" + close), true);
    ScanClean(t, "\n" + close, true);
    ScanNewline(close, true);
    TP.ScanTag(close, true, TP.CLOSE_TAG, rest);
    assert TP.CLOSE_TAG != TP.OPEN_TAG;
    TypedThree("\n", t, "\n");
    hide TP.Typed;
  }

  lemma TypedThree(a: string, b: string, c: string)
    ensures TP.Typed(TP.THINKING, a + b + c)
         == TP.Typed(TP.THINKING, a) + (TP.Typed(TP.THINKING, b) + TP.Typed(TP.THINKING, c))
  {
  }

  lemma {:induction false} ScanParts(blocks: seq<ContentBlock>)
    requires Clean(blocks) && forall i :: 0 <= i < |blocks| ==> blocks[i].TextPart? || blocks[i].ThinkingPart?
    ensures TP.Scan(Join(SEPARATOR, PartTexts(blocks)), false) == Recovered(blocks)
  {
    if blocks != [] {
      var texts := PartTexts(blocks);
      assert Clean([blocks[0]]);
      if |blocks| == 1 {
        assert PartText(blocks[0]) + "" == PartText(blocks[0]);
        ScanPart(blocks[0], "");
      } else {
        var rest := Join(SEPARATOR, PartTexts(blocks[1..]));
        assert texts[1..] == PartTexts(blocks[1..]);
        assert texts[0] + SEPARATOR + rest == texts[0] + ("\n" + ("\n" + rest));
        ScanPart(blocks[0], "\n" + ("\n" + rest));
        ScanNewline("\n" + rest, false);
        ScanNewline(rest, false);
        ScanParts(blocks[1..]);
        hide TP.Scan;
        assert TP.Typed(TP.TEXT, SEPARATOR) == TP.Typed(TP.TEXT, "\n") + TP.Typed(TP.TEXT, "\n");
      }
    }
  }

  lemma {:induction false} WrittenParts(blocks: seq<ContentBlock>)
    ensures forall i :: 0 <= i < |Written(blocks)| ==> Written(blocks)[i].TextPart? || Written(blocks)[i].ThinkingPart?
    ensures Clean(blocks) ==> Clean(Written(blocks))
  {
    if blocks != [] { WrittenParts(blocks[..|blocks| - 1]); }
  }

  /**
   * However the content of a converted message is cut into pieces, the think
   * parser recovers from it every thinking block (with the two newlines it
   * was wrapped in) and every text block, in order; content that would be
   * empty comes back as its blank.
   */
  method ReadBack(blocks: seq<ContentBlock>, pieces: seq<string>) returns (chunks: seq<TP.ContentChunk>)
    requires Clean(blocks) && Concat(pieces) == SentText(blocks)
    ensures TP.Flat(chunks) == if SentText(blocks) == ContentText(blocks) then Recovered(Written(blocks)) else TP.Typed(TP.TEXT, " ")
  {
    WrittenParts(blocks);
    ScanParts(Written(blocks));
    ScanBlank();
    chunks := TP.ParsePieces(pieces);
  }

  lemma ScanBlank()
    ensures TP.Scan(" ", false) == TP.Typed(TP.TEXT, " ")
  {
  }

  // ----- When text does not come back -----

  lemma {:induction false} ScanShrinks(s: string, inside: bool)
    ensures |TP.Scan(s, inside)| <= |s|
    decreases |s|
  {
    if s == "" {
    } else if TP.CLOSE_TAG <= s {
      ScanShrinks(s[|TP.CLOSE_TAG|..], false);
    } else if !inside && TP.OPEN_TAG <= s {
      ScanShrinks(s[|TP.OPEN_TAG|..], true);
    } else {
      ScanShrinks(s[1..], inside);
    }
  }

  lemma {:induction false} ScanDropsTag(s: string, tag: string, i: nat)
    requires TP.IsTag(tag, false) && OccursAt(s, tag, i)
    ensures |TP.Scan(s, false)| < |s|
    decreases |s|
  {
    if OccursAt(s, tag, 0) { assert s[0..|tag|] == s[..|tag|]; }
    if TP.CLOSE_TAG <= s {
      ScanShrinks(s[|TP.CLOSE_TAG|..], false);
    } else if TP.OPEN_TAG <= s {
      ScanShrinks(s[|TP.OPEN_TAG|..], true);
    } else {
      assert s[1..][i - 1..i - 1 + |tag|] == s[i..i + |tag|];
      ScanDropsTag(s[1..], tag, i - 1);
    }
  }

  /** A text block comes back as it was written exactly when it contains no think tag. */
  lemma TextComesBackExactly(text: string)
    ensures TP.Scan(text, false) == TP.Typed(TP.TEXT, text) <==> NoTag(text, false)
  {
    if NoTag(text, false) {
      ScanClean(text, "", false);
      assert text + "" == text;
    } else {
      var tag: string, i :| TP.IsTag(tag, false) && OccursAt(text, tag, i);
      ScanDropsTag(text, tag, i);
    }
  }
}
