/**
 * What is shown of an answer that is text, or text around one call, by way of
 * both parsers (providers/openai_compat.py).
 */
module AnswersShown {
  import opened Text
  import opened Protocol
  import opened Sse
  import opened TextStream
  import opened ShownText
  import opened HeuristicText
  import opened HeuristicCalls
  import opened CallsInText
  import TP = ThinkParser
  import HP = HeuristicParser

  // ----- Chunks that are all text -----

  function Contents(parts: seq<TP.ContentChunk>): seq<string> {
    seq(|parts|, i requires 0 <= i < |parts| => parts[i].content)
  }

  ghost predicate AllAreText(parts: seq<TP.ContentChunk>) {
    forall k :: 0 <= k < |parts| ==> parts[k].kind == TP.TEXT
  }

  lemma ContentsLast(parts: seq<TP.ContentChunk>)
    requires parts != []
    ensures var (before, part) := (parts[..|parts| - 1], parts[|parts| - 1]);
            && before + [part] == parts && Contents(parts) == Contents(before) + [part.content]
            && Concat(Contents(parts)) == Concat(Contents(before)) + part.content
            && (AllAreText(parts) <==> AllAreText(before) && part.kind == TP.TEXT)
  {
    var (before, part) := (parts[..|parts| - 1], parts[|parts| - 1]);
    assert before + [part] == parts;
    assert forall k :: 0 <= k < |before| ==> before[k] == parts[k];
    ConcatAppend(Contents(before), part.content);
  }

  lemma {:induction false} OnlyText(parts: seq<TP.ContentChunk>, text: string)
    requires TP.Flat(parts) == TP.Typed(TP.TEXT, text) && NoneEmpty(parts)
    ensures AllAreText(parts) && Concat(Contents(parts)) == text
  {
    if parts != [] {
      var (before, part) := (parts[..|parts| - 1], parts[|parts| - 1]);
      assert part.content != "" && forall k :: 0 <= k < |before| ==> before[k].content == parts[k].content != "";
      assert NoneEmpty(before);
      hide *;
      ContentsLast(parts);
      TP.FlatAppend(before, part);
      LastText(TP.Flat(before), part, text);
      var n := |text| - |part.content|;
      OnlyText(before, text[..n]);
      assert text[..n] + text[n..] == text;
    }
  }

  lemma LastText(flat: seq<TP.TypedChar>, part: TP.ContentChunk, text: string)
    requires flat + TP.Typed(part.kind, part.content) == TP.Typed(TP.TEXT, text) && part.content != ""
    ensures |part.content| <= |text| && part.kind == TP.TEXT
    ensures var n := |text| - |part.content|;
            flat == TP.Typed(TP.TEXT, text[..n]) && part.content == text[n..]
  {
    var (all, end) := (TP.Typed(TP.TEXT, text), TP.Typed(part.kind, part.content));
    var n := |text| - |part.content|;
    assert |all| == |flat| + |end|;
    assert forall i :: 0 <= i < |flat| ==> flat[i] == all[i];
    assert forall i :: 0 <= i < |end| ==> end[i] == all[n + i];
    assert end[0] == all[n];
    forall i | 0 <= i < |part.content| ensures part.content[i] == text[n + i] {
      assert end[i].c == all[n + i].c;
    }
  }

  lemma ScanNothing()
    ensures TP.Scan("", false) == [] && TP.KindOf(false) == TP.TEXT
  {
  }

  /** Content without a tag: the chunks are its pieces, but for a cut tag at the end. */
  lemma AnswerParts(parts: seq<TP.ContentChunk>, rest: Option<TP.ContentChunk>, answer: string) returns (tail: string)
    requires TP.NoTagBefore(answer, false, |answer|) && PartsOf(parts, rest, answer)
    ensures tail == (if rest.Some? then rest.value.content else "") && answer == Concat(Contents(parts)) + tail
    ensures AllAreText(parts) && (rest.Some? ==> rest.value.kind == TP.TEXT && tail != "")
  {
    hide TP.NoTagBefore, TP.Scan, TP.Flat, TP.Typed, TP.Waiting, Contents, AllAreText, NoneEmpty;
    ScanNothing();
    assert answer + "" == answer;
    TP.ScanPlain(answer, "", false);
    assert TP.Typed(TP.TEXT, answer) + [] == TP.Typed(TP.TEXT, answer);
    tail := if rest.Some? then rest.value.content else "";
    var n := |answer| - |tail|;
    if rest.Some? {
      LastText(TP.Flat(parts), rest.value, answer);
    } else {
      assert TP.Flat(parts) + [] == TP.Flat(parts) && answer[..n] == answer;
    }
    OnlyText(parts, answer[..n]);
    assert answer[..n] + tail == answer;
  }

  /** A cut tag does not end with '>'. */
  lemma WaitingEnds(c: string)
    requires c != "" && exists inside :: TP.Waiting(c, inside)
    ensures c[|c| - 1] != '>'
  {
  }

  /** Content that ends with '>' leaves nothing for the flush. */
  lemma NothingWaits(parts: seq<TP.ContentChunk>, rest: Option<TP.ContentChunk>, content: string)
    requires TP.NoTagBefore(content, false, |content|) && PartsOf(parts, rest, content)
    requires content != "" && content[|content| - 1] == '>'
    ensures rest.None? && AllAreText(parts) && Concat(Contents(parts)) == content
  {
    if rest.Some? { WaitingEnds(rest.value.content); }
    hide *;
    var tail := AnswerParts(parts, rest, content);
    var fed := Concat(Contents(parts));
    LastChar(fed, tail);
  }

  lemma LastChar(a: string, b: string)
    ensures b != "" ==> (a + b)[|a + b| - 1] == b[|b| - 1]
    ensures a + "" == a
  {
  }

  // ----- The filter, fed with the chunks -----

  lemma {:induction false} FedAsPieces(parts: seq<TP.ContentChunk>)
    requires AllAreText(parts)
    ensures FedAll(parts) == FeedPieces(HP.START, Contents(parts))
  {
    hide HP.FeedMachine;
    if parts != [] {
      var (before, part) := (parts[..|parts| - 1], parts[|parts| - 1]);
      ContentsLast(parts);
      FedAsPieces(before);
      hide *;
      var o := FeedPieces(HP.START, Contents(before));
      FedOneMore(before, part);
      FeedMore(HP.START, Contents(before), [part.content]);
      FeedLast(o, part);
    }
  }

  lemma FeedLast(o: HP.Outcome, part: TP.ContentChunk)
    requires part.kind == TP.TEXT
    ensures FedOne(o, part) == HP.Before(o.text, o.tools, FeedPieces(o.m, [part.content]))
  {
    hide HP.FeedMachine;
    FeedFirst(o.m, part.content, []);
    var d := HP.FeedMachine(o.m, part.content);
    assert [part.content] + [] == [part.content] && d.text + "" == d.text && d.tools + [] == d.tools;
  }

  /** The one block, if any, holds the text so far. */
  predicate TextSoFar(out: Shown, text: string) {
    if text == "" then out.blocks == [] && !out.open
    else out.open && |out.blocks| == 1 && out.blocks[0].kind == TextBlock && Concat(out.blocks[0].deltas) == text
  }

  lemma TextGrows(out: Shown, text: string, more: string)
    requires TextSoFar(out, text) && more != ""
    ensures TextSoFar(PutContent(out, TextBlock, more), text + more)
  {
    if out.open {
      ConcatAppend(out.blocks[0].deltas, more);
    }
    assert Concat([more]) == more + Concat([]) == more;
  }

  lemma SameText(out: Shown, out': Shown, text: string)
    requires TextSoFar(out, text) && out'.blocks == out.blocks && out'.open == out.open
    ensures TextSoFar(out', text)
  {
  }

  /** As long as no tool is found, the text that is released is in one block. */
  lemma {:induction false} TextOnly(parts: seq<TP.ContentChunk>, json: Json)
    requires AllAreText(parts) && FedAll(parts).tools == []
    ensures TextSoFar(ShowAll(parts, json), FedAll(parts).text)
  {
    if parts == [] {
    } else {
      var (before, part) := (parts[..|parts| - 1], parts[|parts| - 1]);
      ContentsLast(parts);
      FedMachine(before, json);
      LastOf(parts, json);
      hide FedAll, ShowAll, TextSoFar, HP.FeedMachine, AllAreText;
      assert FedAll(parts) == FedOne(FedAll(before), part);
      TextOnly(before, json);
      OneMoreText(ShowAll(before, json), FedAll(before), part, json);
    }
  }

  lemma OneMoreText(out: Shown, fed: HP.Outcome, part: TP.ContentChunk, json: Json)
    requires TextSoFar(out, fed.text) && out.m == fed.m && part.kind == TP.TEXT && FedOne(fed, part).tools == []
    ensures TextSoFar(ShowPart(out, part, json), FedOne(fed, part).text)
  {
    hide HP.FeedMachine, TextSoFar;
    var o := HP.FeedMachine(out.m, part.content);
    if o.text == "" {
      assert fed.text + "" == fed.text;
      SameText(out, ShowPart(out, part, json), fed.text);
    } else {
      SameText(out, out.(m := o.m), fed.text);
      TextGrows(out.(m := o.m), fed.text, o.text);
    }
  }

  // ----- Text without a call -----

  /** The one text block, with what was released to it; a blank if that is nothing. */
  predicate ShowsText(blocks: seq<Block>, text: string) {
    |blocks| == 1 && blocks[0].kind == TextBlock && Concat(blocks[0].deltas) == if text == "" then " " else text
  }

  lemma ShowsBy(blocks: seq<Block>, parts: seq<TP.ContentChunk>, rest: Option<TP.ContentChunk>, content: string, json: Json)
    requires Shows(blocks, parts, rest, content, json)
    ensures WithoutIds(blocks) == ShowBlank(ShowRest(ShowAll(parts, json), rest, json)).blocks && PartsOf(parts, rest, content)
  {
    hide PartsOf, ShowBlank, ShowRest, ShowAll;
  }

  lemma BlankUnlessText(out: Shown, text: string)
    requires TextSoFar(out, text)
    ensures ShowsText(ShowBlank(out).blocks, text)
  {
    if text == "" {
      assert Concat([" "]) == " " + Concat([]) == " ";
    } else {
      assert out.blocks[0].kind == TextBlock;
    }
  }

  /**
   * However it arrives, an answer without tags, headers and finished sentinels
   * is shown as one text block. It holds all of the answer but for what the
   * filter keeps back of it; a cut tag at the very end does not count for that,
   * and is always shown.
   */
  lemma AnswerShown(blocks: seq<Block>, parts: seq<TP.ContentChunk>, rest: Option<TP.ContentChunk>, answer: string, json: Json)
    requires TP.NoTagBefore(answer, false, |answer|) && NoFunc(answer) && NoControl(answer)
    requires Shows(blocks, parts, rest, answer, json)
    ensures var tail := if rest.Some? then rest.value.content else "";
            var (fed, kept) := (Concat(Contents(parts)), Carried("", Contents(parts)));
            && answer == fed + tail && |kept| <= |fed|
            && ShowsText(WithoutIds(blocks), fed[..|fed| - |kept|] + tail)
            && (Lacks(answer, '|') ==> kept == Kept(fed))
  {
    hide *;
    ShowsBy(blocks, parts, rest, answer, json);
    var tail := AnswerParts(parts, rest, answer);
    var pieces := Contents(parts);
    AnswerFed(pieces, tail, answer);
    FedAsPieces(parts);
    TextOnly(parts, json);
    FedMachine(parts, json);
    ShowsAtAnswerEnd(ShowAll(parts, json), FedAll(parts).text, rest, json);
  }

  lemma AnswerFed(pieces: seq<string>, tail: string, answer: string)
    requires answer == Concat(pieces) + tail && NoFunc(answer) && NoControl(answer)
    ensures var (o, fed, kept) := (FeedPieces(HP.START, pieces), Concat(pieces), Carried("", pieces));
            && o.tools == [] && o.m.state != HP.PARSING_PARAMETERS && |kept| <= |fed| && o.text == fed[..|fed| - |kept|]
            && (Lacks(answer, '|') ==> kept == Kept(fed))
  {
    var (o, fed, kept) := (FeedPieces(HP.START, pieces), Concat(pieces), Carried("", pieces));
    hide *;
    NothingIn(fed, tail, answer);
    FedFront(pieces);
    IdleIsNotParsing(o.m);
    FrontOf(o.text, kept, fed);
    LacksBoth(fed, tail, '|');
    if Lacks(answer, '|') { CarriedIsWhole(pieces); }
  }

  lemma NothingIn(fed: string, tail: string, answer: string)
    requires answer == fed + tail && NoFunc(answer) && NoControl(answer)
    ensures NoFunc(fed) && NoControl(fed)
  {
    hide *;
    assert "" + fed + tail == answer by { assert "" + fed == fed; }
    NoFuncInPart("", fed, tail);
    NoControlInPart("", fed, tail);
  }

  lemma FrontOf(a: string, b: string, ab: string)
    requires a + b == ab
    ensures |b| <= |ab| && a == ab[..|ab| - |b|]
  {
  }

  lemma CarriedIsWhole(pieces: seq<string>)
    requires Lacks(Concat(pieces), '|')
    ensures Carried("", pieces) == Kept(Concat(pieces))
  {
    hide *;
    NothingKept();
    CarriedIsKept("", pieces);
    assert "" + Concat(pieces) == Concat(pieces);
  }

  lemma IdleIsNotParsing(m: HP.Machine)
    requires Idle(m)
    ensures m.state != HP.PARSING_PARAMETERS
  {
  }

  lemma ShowsAtAnswerEnd(out: Shown, text: string, rest: Option<TP.ContentChunk>, json: Json)
    requires out.m.state != HP.PARSING_PARAMETERS && TextSoFar(out, text)
    requires rest.Some? ==> rest.value.kind == TP.TEXT && rest.value.content != ""
    ensures ShowsText(ShowBlank(ShowRest(out, rest, json)).blocks, text + if rest.Some? then rest.value.content else "")
  {
    FlushText(out.m);
    hide HP.FlushMachine;
    if rest.Some? {
      TextGrows(out, text, rest.value.content);
      BlankUnlessText(PutContent(out, TextBlock, rest.value.content), text + rest.value.content);
    } else {
      assert text + "" == text;
      BlankUnlessText(out, text);
    }
  }

  /** A short answer that begins with a bullet is shown as a blank. */
  lemma BulletAnswerBlank(blocks: seq<Block>, parts: seq<TP.ContentChunk>, answer: string, json: Json)
    requires TP.NoTagBefore(answer, false, |answer|) && NoFunc(answer) && Lacks(answer, '|')
    requires answer != "" && answer[0] == HP.BULLET && |answer| <= 100
    requires Shows(blocks, parts, None, answer, json)
    ensures WithoutIds(blocks) == [Block(TextBlock, [" "])]
  {
    assert NearBullet(answer) == 0;
    assert Kept(answer) == answer;
    hide *;
    NoBarNoControl(answer);
    ShowsBy(blocks, parts, None, answer, json);
    var tail := AnswerParts(parts, None, answer);
    assert Concat(Contents(parts)) + "" == Concat(Contents(parts));
    AnswerFed(Contents(parts), "", answer);
    FedAsPieces(parts);
    TextOnly(parts, json);
    FedMachine(parts, json);
    assert answer[..0] == "";
    BlankAtEnd(ShowAll(parts, json), json);
  }

  lemma BlankAtEnd(out: Shown, json: Json)
    requires out.m.state != HP.PARSING_PARAMETERS && TextSoFar(out, "")
    ensures ShowBlank(ShowRest(out, None, json)).blocks == [Block(TextBlock, [" "])]
  {
    FlushText(out.m);
    hide HP.FlushMachine;
  }

  // ----- A call at the end -----

  /** What is shown of a text followed by a tool call: the text, if any, and the call; and some text in any case. */
  predicate ShowsCall(blocks: seq<Block>, pre: string, tool: Block) {
    if pre == "" then blocks == [tool, Block(TextBlock, [" "])]
    else |blocks| == 2 && blocks[0].kind == TextBlock && Concat(blocks[0].deltas) == pre && blocks[1] == tool
  }

  /**
   * However the content arrives, a well-formed tool call at the end of text
   * is shown as one tool block with the stripped name and all parameters, if no
   * chunk ends in the white space between its tags. Before it is a text block
   * with what the filter releases of the text before, and that white space.
   */
  lemma CallShown(blocks: seq<Block>, parts: seq<TP.ContentChunk>, rest: Option<TP.ContentChunk>,
                  pre: string, call: Call, json: Json)
    requires WellFormed(call) && CutsWell(call, "", Beyond(|pre|, Contents(parts)))
    requires var content := pre + CallText(call);
             && TP.NoTagBefore(content, false, |content|) && NoControl(content) && NoHeaderBefore(content, |pre|)
             && Shows(blocks, parts, rest, content, json)
    ensures var before := Earlier(|pre| + |Header(call)|, Contents(parts));
            ShowsCall(WithoutIds(blocks), ShownBefore(pre, before) + GapsOf(call.params), WholeTool(ToolOf(call), json))
  {
    hide *;
    var (content, pieces) := (pre + CallText(call), Contents(parts));
    ShowsBy(blocks, parts, rest, content, json);
    CallAtEnd(pre, call);
    NothingWaits(parts, rest, content);
    LastCall(call, pre, pieces);
    FedAsPieces(parts);
    TextOnly(parts, json);
    FedMachine(parts, json);
    ToolAtEnd(ShowAll(parts, json), FedAll(parts).text, ToolOf(call), json);
  }

  lemma CallAtEnd(pre: string, call: Call)
    ensures var content := pre + CallText(call);
            content != "" && content[|content| - 1] == '>'
  {
    CallEnds(call);
    hide CallText;
  }

  lemma ToolAtEnd(out: Shown, text: string, tool: HP.ToolUse, json: Json)
    requires TextSoFar(out, text) && HP.FlushMachine(out.m).1 == [tool]
    ensures ShowsCall(ShowBlank(ShowRest(out, None, json)).blocks, text, WholeTool(tool, json))
  {
    hide HP.FlushMachine, ToolInput;
    assert WholeTools([tool], json) == [WholeTool(tool, json)];
    HasBlockIn(out.blocks, WholeTool(tool, json));
    if text != "" { assert out.blocks[0].kind == TextBlock; }
  }

  /** A call without white space between its tags, after text without bullets: all of both, however they are cut. */
  lemma PlainCallShown(blocks: seq<Block>, parts: seq<TP.ContentChunk>, rest: Option<TP.ContentChunk>,
                       pre: string, call: Call, json: Json)
    requires WellFormed(call) && Lacks(pre, HP.BULLET) && forall k :: 0 <= k < |call.params| ==> call.params[k].gap == ""
    requires var content := pre + CallText(call);
             TP.NoTagBefore(content, false, |content|) && NoControl(content) && Shows(blocks, parts, rest, content, json)
    ensures ShowsCall(WithoutIds(blocks), pre, WholeTool(ToolOf(call), json))
  {
    var content := pre + CallText(call);
    NoGaps(call.params);
    assert CutsWell(call, "", Beyond(|pre|, Contents(parts)));
    assert forall i :: 0 <= i < |pre| ==> content[i] == pre[i] != HP.BULLET;
    assert NoHeaderBefore(content, |pre|);
    hide *;
    CallShown(blocks, parts, rest, pre, call, json);
    NoBulletShown(pre, Earlier(|pre| + |Header(call)|, Contents(parts)));
    assert pre + "" == pre;
  }

  /**
   * Text without bars around a call, in any chunks that do not cut the call
   * short: what is shown of it depends only on where the bullets before it are,
   * and on whether what comes first after it begins like a tag.
   */
  lemma TextAroundCallShown(parts: seq<TP.ContentChunk>, pre: string, call: Call, more: string)
    requires WellFormed(call) && Aside(more) && CutsWell(call, "", Beyond(|pre|, Contents(parts)))
    requires var content := pre + (CallText(call) + more);
             && TP.NoTagBefore(content, false, |content|) && NoControl(content) && NoHeaderBefore(content, |pre|)
             && PartsOf(parts, None, content)
    ensures var before := Earlier(|pre| + |Header(call)|, Contents(parts));
            var after := Beyond(|pre| + |CallText(call)|, Contents(parts));
            && (more != "" ==> after != [])
            && ShownFor(parts, None)
            == ShownBefore(pre, before) + (GapsOf(call.params) + if more == "" then "" else ShownAfter(more, after[0]))
  {
    hide *;
    var (content, pieces) := (pre + (CallText(call) + more), Contents(parts));
    var tail := AnswerParts(parts, None, content);
    assert Concat(pieces) + "" == Concat(pieces);
    CallIsThere(call, pre, more, pieces);
    TextAroundCall(call, pre, more, pieces);
    FedAsPieces(parts);
    ShownNoRest(parts);
  }

  lemma ShownNoRest(parts: seq<TP.ContentChunk>)
    ensures ShownFor(parts, None) == FedAll(parts).text
  {
    hide FedAll;
    assert FedAll(parts).text + "" == FedAll(parts).text;
  }
}
