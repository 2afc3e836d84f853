/**
 * Which blocks an answer with a tool call in its text is shown as
 * (providers/openai_compat.py).
 */
module CallBlocks {
  import opened Text
  import opened Protocol
  import opened Sse
  import opened TextStream
  import opened ShownText
  import opened HeuristicText
  import opened HeuristicCalls
  import opened CallsInText
  import opened AnswersShown
  import TP = ThinkParser
  import HP = HeuristicParser

  // ----- The piece in which text after a call begins -----

  lemma {:induction false} EarlierInFront(n: nat, a: seq<string>, b: seq<string>)
    requires n <= |Concat(a)|
    ensures Earlier(n, a + b) == Earlier(n, a)
    decreases |a|
  {
    if a == [] {
      assert b != [] ==> |b[0]| >= n;
      assert a + b == b;
    } else {
      assert (a + b)[0] == a[0] && (a + b)[1..] == a[1..] + b;
      if |a[0]| < n { EarlierInFront(n - |a[0]|, a[1..], b); }
    }
  }

  lemma {:induction false} BeyondInFront(n: nat, a: seq<string>, b: seq<string>)
    requires n < |Concat(a)|
    ensures Beyond(n, a + b) == Beyond(n, a) + b && Beyond(n, a) != []
    decreases |a|
  {
    assert (a + b)[0] == a[0] && (a + b)[1..] == a[1..] + b;
    if |a[0]| <= n {
      BeyondInFront(n - |a[0]|, a[1..], b);
    } else {
      assert [a[0][n..]] + (a[1..] + b) == [a[0][n..]] + a[1..] + b;
    }
  }

  lemma CutsWellInFront(call: Call, a: seq<string>, b: seq<string>)
    requires CutsWell(call, "", a + b)
    ensures CutsWell(call, "", a)
  {
    hide EndsInGap;
    forall k | 0 <= k <= |a| ensures !EndsInGap(call, "" + Concat(a[..k])) {
      assert (a + b)[..k] == a[..k];
    }
  }

  /** No tool comes out while only the text before a call and a part of the call have been fed. */
  lemma NoToolYet(call: Call, pre: string, pieces: seq<string>)
    requires WellFormed(call) && Concat(pieces) <= pre + CallText(call) && NoControl(pre + CallText(call))
    requires NoHeaderBefore(pre + CallText(call), |pre|) && CutsWell(call, "", Beyond(|pre|, pieces))
    ensures FeedPieces(HP.START, pieces).tools == []
  {
    hide *;
    FrontOfWhole(Concat(pieces), pre + CallText(call), |pre|);
    if |Concat(pieces)| < |pre| + |Header(call)| {
      NoFuncYet(call, pre, Concat(pieces));
      TextLostExactly(pieces);
    } else {
      NoToolInCall(call, pre, Concat(pieces), pieces);
    }
  }

  lemma NoToolInCall(call: Call, pre: string, s: string, pieces: seq<string>)
    requires WellFormed(call) && s == Concat(pieces) && s <= pre + CallText(call) && |s| >= |pre| + |Header(call)|
    requires NoControl(s) && NoHeaderBefore(s, |pre|) && CutsWell(call, "", Beyond(|pre|, pieces))
    ensures FeedPieces(HP.START, pieces).tools == []
  {
    hide *;
    var rest := s[|pre| + |Header(call)|..];
    TextIs(call);
    HeaderFed(pre, Header(call), ParamsText(call.params), s, rest);
    HasCallIs(call, pre, rest, pieces);
    TextBeforeCall(call, pre, rest, pieces);
    BeyondIsRest(|pre|, pieces);
    AloneFed(call, pre, rest, s, Beyond(|pre|, pieces));
    BeforeIs(ShownBefore(pre, Earlier(|pre| + |Header(call)|, pieces)), FeedPieces(HP.START, Beyond(|pre|, pieces)));
  }

  lemma FrontOfWhole(s: string, whole: string, n: nat)
    requires s <= whole && NoControl(whole) && NoHeaderBefore(whole, n)
    ensures NoControl(s) && NoHeaderBefore(s, n)
  {
    hide *;
    var more := whole[|s|..];
    assert "" + s + more == whole;
    NoControlInPart("", s, more);
    NoHeaderInPart("", s, more, n);
  }

  lemma NoFuncYet(call: Call, pre: string, s: string)
    requires WellFormed(call) && NoHeaderBefore(pre + CallText(call), |pre|)
    requires s <= pre + CallText(call) && |s| < |pre| + |Header(call)|
    ensures NoFunc(s)
  {
    hide *;
    TextIs(call);
    NoFuncBefore(call, pre, ParamsText(call.params), s);
  }

  lemma AloneFed(call: Call, pre: string, rest: string, s: string, alone: seq<string>)
    requires WellFormed(call) && CutsWell(call, "", alone) && s == pre + (Header(call) + rest)
    requires Concat(alone) == s[|pre|..] && s <= pre + CallText(call)
    ensures FeedPieces(HP.START, alone).tools == []
  {
    hide *;
    RestFedAlone(call, pre, rest, s, Concat(alone));
    AfterNothing(call, HP.START, "");
    StartsEmpty(Concat(alone));
    FeedWell(call, "", HP.START, "", alone);
  }

  lemma TextIs(call: Call)
    ensures CallText(call) == Header(call) + ParamsText(call.params)
  {
  }

  lemma HeaderFed(pre: string, h: string, params: string, s: string, rest: string)
    requires s <= pre + (h + params) && |s| >= |pre| + |h| && rest == s[|pre| + |h|..]
    ensures s == pre + (h + rest)
  {
    var k := |pre| + |h|;
    assert s == (pre + (h + params))[..|s|] && s[..k] == pre + h;
  }

  lemma HasCallIs(call: Call, pre: string, rest: string, pieces: seq<string>)
    requires WellFormed(call) && Concat(pieces) == pre + (Header(call) + rest)
    requires NoControl(Concat(pieces)) && NoHeaderBefore(Concat(pieces), |pre|)
    ensures HasCall(call, pre, rest, pieces)
  {
  }

  lemma RestFedAlone(call: Call, pre: string, rest: string, s: string, alone: string)
    requires s == pre + (Header(call) + rest) && s <= pre + CallText(call) && alone == s[|pre|..]
    ensures alone <= CallText(call)
  {
    hide Header, CallText;
    assert s == (pre + CallText(call))[..|s|];
    assert alone == CallText(call)[..|s| - |pre|];
  }

  lemma StartsEmpty(s: string)
    ensures HP.START.state == HP.TEXT && HP.START.buffer == "" && "" + s == s
  {
  }

  /**
   * The first text after the call that is fed, in this piece, ends the call: up
   * to the end of the piece all text is released, then the tool comes out, and
   * what follows is ordinary text.
   */
  lemma EndingPiece(call: Call, pre: string, more: string, pieces: seq<string>)
    returns (front: seq<string>, piece: string, later: seq<string>)
    requires WellFormed(call) && Aside(more) && Concat(pieces) == pre + (CallText(call) + more)
    requires NoControl(Concat(pieces)) && NoHeaderBefore(Concat(pieces), |pre|) && CutsWell(call, "", Beyond(|pre|, pieces))
    requires var after := Beyond(|pre| + |CallText(call)|, pieces); after != [] && !LooksLikeTag(after[0])
    ensures pieces == front + [piece] + later
    ensures var after := Beyond(|pre| + |CallText(call)|, pieces);
            var before := Earlier(|pre| + |Header(call)|, pieces);
            var a := FeedPieces(HP.START, front);
            var d := HP.FeedMachine(a.m, piece);
            && a.tools == [] && d.tools == [ToolOf(call)]
            && a.text + d.text == ShownBefore(pre, before) + (GapsOf(call.params) + after[0])
            && d.m.state == HP.TEXT && d.m.buffer == ""
            && after[0] <= more && Concat(later) == more[|after[0]|..]
  {
    hide *;
    var (n, whole) := (|pre| + |CallText(call)|, Concat(pieces));
    var after := Beyond(n, pieces);
    MoreFed(n, pieces, pre + (CallText(call) + more));
    piece := Completing(n + 1, pieces);
    front, later := Earlier(n + 1, pieces), Later(n + 1, pieces);
    FrontWithin(call, pre, more, front, piece, later);
    var first := (Concat(front) + piece)[n..];
    AfterPiece(n, front, piece, later, pieces);
    FirstOfMore(call, pre, more, front, piece, later, first);
    FrontHasNoTool(call, pre, more, front, [piece] + later, pieces);
    UpToPiece(call, pre, more, first, front, piece, later, pieces);
  }

  lemma MoreFed(n: nat, pieces: seq<string>, whole: string)
    requires Concat(pieces) == whole && Beyond(n, pieces) != []
    ensures n + 1 <= |whole|
  {
    BeyondFits(n, pieces);
  }

  lemma {:induction false} BeyondFits(n: nat, pieces: seq<string>)
    requires Beyond(n, pieces) != []
    ensures n < |Concat(pieces)|
    decreases |pieces|
  {
    if |pieces[0]| <= n { BeyondFits(n - |pieces[0]|, pieces[1..]); }
  }

  lemma FrontWithin(call: Call, pre: string, more: string, front: seq<string>, piece: string, later: seq<string>)
    requires Concat(front) + piece + Concat(later) == pre + (CallText(call) + more)
    requires |Concat(front)| <= |pre| + |CallText(call)| < |Concat(front)| + |piece|
    ensures Concat(front) <= pre + CallText(call)
    ensures Concat(front) + piece == pre + (CallText(call) + (Concat(front) + piece)[|pre| + |CallText(call)|..])
  {
    hide CallText, Concat;
    var (a, b, c) := (Concat(front), pre + CallText(call), Concat(front) + piece);
    assert pre + (CallText(call) + more) == b + more;
    assert a == (a + piece + Concat(later))[..|a|] == (b + more)[..|a|] == b[..|a|];
    assert c == (c + Concat(later))[..|c|] == (b + more)[..|c|];
    assert c[..|b|] == b && c == b + c[|b|..];
    assert pre + (CallText(call) + c[|b|..]) == b + c[|b|..];
  }

  lemma AfterPiece(n: nat, front: seq<string>, piece: string, later: seq<string>, pieces: seq<string>)
    requires pieces == front + [piece] + later && |Concat(front)| <= n < |Concat(front)| + |piece|
    ensures Beyond(n, pieces) == [(Concat(front) + piece)[n..]] + later
  {
    var upTo := front + [piece];
    ConcatAppend(front, piece);
    assert upTo + later == pieces;
    BeyondInFront(n, upTo, later);
    BeyondLast(n, front, piece);
    assert [(Concat(front) + piece)[n..]] + later == Beyond(n, upTo) + later;
  }

  lemma {:induction false} BeyondLast(n: nat, front: seq<string>, piece: string)
    requires |Concat(front)| <= n < |Concat(front)| + |piece|
    ensures Beyond(n, front + [piece]) == [(Concat(front) + piece)[n..]]
    decreases |front|
  {
    var all := front + [piece];
    if front == [] {
      assert all == [piece] && "" + piece == piece && [piece[n..]] + [] == [piece[n..]];
      assert all[1..] == [];
    } else {
      assert all[0] == front[0] && all[1..] == front[1..] + [piece];
      BeyondLast(n - |front[0]|, front[1..], piece);
      var rest := Concat(front[1..]) + piece;
      assert Concat(front) + piece == front[0] + rest;
      assert (front[0] + rest)[n..] == rest[n - |front[0]|..];
    }
  }

  lemma FirstOfMore(call: Call, pre: string, more: string, front: seq<string>, piece: string, later: seq<string>, first: string)
    requires Concat(front) + piece + Concat(later) == pre + (CallText(call) + more)
    requires Concat(front) + piece == pre + (CallText(call) + first)
    ensures more == first + Concat(later) && first <= more && Concat(later) == more[|first|..]
  {
    hide CallText, Concat;
    var b := pre + CallText(call);
    assert pre + (CallText(call) + more) == b + more;
    assert Concat(front) + piece + Concat(later) == b + (first + Concat(later)) by {
      assert pre + (CallText(call) + first) == b + first;
    }
    assert (b + more)[|b|..] == more && (b + (first + Concat(later)))[|b|..] == first + Concat(later);
  }

  lemma FrontHasNoTool(call: Call, pre: string, more: string, front: seq<string>, others: seq<string>, pieces: seq<string>)
    requires WellFormed(call) && Concat(pieces) == pre + (CallText(call) + more) && pieces == front + others
    requires NoControl(Concat(pieces)) && NoHeaderBefore(Concat(pieces), |pre|) && CutsWell(call, "", Beyond(|pre|, pieces))
    requires Concat(front) <= pre + CallText(call)
    ensures FeedPieces(HP.START, front).tools == []
  {
    hide *;
    WholeFront(pre, CallText(call), more);
    if |Concat(front)| > |pre| {
      BeyondInFront(|pre|, front, others);
      CutsWellInFront(call, Beyond(|pre|, front), others);
    } else {
      NothingBeyond(|pre|, front);
      NoCut(call);
    }
    NoToolYet(call, pre, front);
  }

  lemma WholeFront(pre: string, call: string, more: string)
    requires NoControl(pre + (call + more)) && NoHeaderBefore(pre + (call + more), |pre|)
    ensures NoControl(pre + call) && NoHeaderBefore(pre + call, |pre|)
  {
    hide *;
    assert "" + (pre + call) + more == pre + (call + more);
    NoControlInPart("", pre + call, more);
    NoHeaderInPart("", pre + call, more, |pre|);
  }

  lemma {:induction false} NothingBeyond(n: nat, pieces: seq<string>)
    requires |Concat(pieces)| <= n
    ensures Beyond(n, pieces) == []
    decreases |pieces|
  {
    if pieces != [] { NothingBeyond(n - |pieces[0]|, pieces[1..]); }
  }

  lemma NoCut(call: Call)
    ensures CutsWell(call, "", [])
  {
    assert "" + Concat([]) == "";
  }

  /** Up to the end of the piece: the text around the call, as far as it has come. */
  lemma UpToPiece(call: Call, pre: string, more: string, first: string, front: seq<string>, piece: string, later: seq<string>,
                  pieces: seq<string>)
    requires WellFormed(call) && Aside(more) && Concat(pieces) == pre + (CallText(call) + more) && pieces == front + [piece] + later
    requires NoControl(Concat(pieces)) && NoHeaderBefore(Concat(pieces), |pre|) && CutsWell(call, "", Beyond(|pre|, pieces))
    requires Concat(front) + piece == pre + (CallText(call) + first) && more == first + Concat(later)
    requires |Concat(front)| <= |pre| + |CallText(call)| && first != "" && !LooksLikeTag(first)
    requires first == (Concat(front) + piece)[|pre| + |CallText(call)|..] && FeedPieces(HP.START, front).tools == []
    ensures var a := FeedPieces(HP.START, front);
            var d := HP.FeedMachine(a.m, piece);
            && d.tools == [ToolOf(call)] && d.m.state == HP.TEXT && d.m.buffer == ""
            && a.text + d.text
            == ShownBefore(pre, Earlier(|pre| + |Header(call)|, pieces)) + (GapsOf(call.params) + first)
  {
    hide *;
    var upTo := front + [piece];
    UpToIs(call, pre, more, first, front, piece, later, pieces);
    UpToCuts(call, pre, first, front, piece, later, pieces);
    UpToFed(call, pre, first, upTo);
    UpToLast(front, piece, ToolOf(call));
  }

  lemma UpToIs(call: Call, pre: string, more: string, first: string, front: seq<string>, piece: string, later: seq<string>,
               pieces: seq<string>)
    requires WellFormed(call) && Aside(more) && Concat(pieces) == pre + (CallText(call) + more) && more == first + Concat(later)
    requires NoControl(Concat(pieces)) && NoHeaderBefore(Concat(pieces), |pre|)
    requires Concat(front) + piece == pre + (CallText(call) + first)
    ensures HasCall(call, pre, ParamsText(call.params) + first, front + [piece]) && Aside(first)
  {
    hide *;
    ConcatAppend(front, piece);
    AsidePartsOf(more, first, Concat(later));
    FrontFacts(call, pre, first, more, Concat(later));
    CallIsThere(call, pre, first, front + [piece]);
  }

  lemma UpToCuts(call: Call, pre: string, first: string, front: seq<string>, piece: string, later: seq<string>, pieces: seq<string>)
    requires pieces == front + [piece] + later && CutsWell(call, "", Beyond(|pre|, pieces)) && first != ""
    requires |Concat(front)| <= |pre| + |CallText(call)| && |Concat(front)| + |piece| == |pre| + |CallText(call)| + |first|
    requires first == (Concat(front) + piece)[|pre| + |CallText(call)|..]
    ensures var upTo := front + [piece];
            && CutsWell(call, "", Beyond(|pre|, upTo)) && Beyond(|pre| + |CallText(call)|, upTo) == [first]
            && Earlier(|pre| + |Header(call)|, upTo) == Earlier(|pre| + |Header(call)|, pieces)
  {
    hide *;
    var upTo := front + [piece];
    UpToLength(front, piece);
    HeaderShorter(call);
    BeyondInFront(|pre|, upTo, later);
    CutsWellInFront(call, Beyond(|pre|, upTo), later);
    EarlierInFront(|pre| + |Header(call)|, upTo, later);
    BeyondLast(|pre| + |CallText(call)|, front, piece);
  }

  lemma UpToLength(front: seq<string>, piece: string)
    ensures |Concat(front + [piece])| == |Concat(front)| + |piece|
  {
    ConcatAppend(front, piece);
  }

  lemma HeaderShorter(call: Call)
    ensures |Header(call)| <= |CallText(call)|
  {
  }

  lemma UpToFed(call: Call, pre: string, first: string, upTo: seq<string>)
    requires HasCall(call, pre, ParamsText(call.params) + first, upTo) && Aside(first) && first != "" && !LooksLikeTag(first)
    requires CutsWell(call, "", Beyond(|pre|, upTo)) && Beyond(|pre| + |CallText(call)|, upTo) == [first]
    ensures var o := FeedPieces(HP.START, upTo);
            && o.tools + HP.FlushMachine(o.m).1 == [ToolOf(call)] && EndsAs(o, false)
            && o.text == ShownBefore(pre, Earlier(|pre| + |Header(call)|, upTo)) + (GapsOf(call.params) + first)
  {
    hide *;
    TextAroundCall(call, pre, first, upTo);
    NotHeld(first);
  }

  lemma NotHeld(first: string)
    requires !LooksLikeTag(first)
    ensures ShownAfter(first, first) == first
  {
  }

  lemma UpToLast(front: seq<string>, piece: string, tool: HP.ToolUse)
    requires FeedPieces(HP.START, front).tools == []
    requires var o := FeedPieces(HP.START, front + [piece]);
             o.tools + HP.FlushMachine(o.m).1 == [tool] && EndsAs(o, false)
    ensures var a := FeedPieces(HP.START, front);
            var d := HP.FeedMachine(a.m, piece);
            && d.tools == [tool] && d.m.state == HP.TEXT && d.m.buffer == ""
            && FeedPieces(HP.START, front + [piece]).text == a.text + d.text
  {
    hide *;
    FeedMore(HP.START, front, [piece]);
    var a := FeedPieces(HP.START, front);
    OneFed(a.m, piece);
    JoinedOutcome(a, HP.FeedMachine(a.m, piece), FeedPieces(HP.START, front + [piece]), tool);
  }

  lemma OneFed(m: HP.Machine, piece: string)
    ensures var d := HP.FeedMachine(m, piece);
            FeedPieces(m, [piece]) == HP.Before(d.text, d.tools, HP.Outcome(d.m, "", []))
  {
    hide HP.FeedMachine;
    assert [piece] + [] == [piece];
    FeedFirst(m, piece, []);
  }

  lemma JoinedOutcome(a: HP.Outcome, d: HP.Outcome, o: HP.Outcome, tool: HP.ToolUse)
    requires o == HP.Before(a.text, a.tools, HP.Before(d.text, d.tools, HP.Outcome(d.m, "", [])))
    requires a.tools == [] && o.tools + HP.FlushMachine(o.m).1 == [tool] && EndsAs(o, false)
    ensures d.tools == [tool] && d.m.state == HP.TEXT && d.m.buffer == "" && o.text == a.text + d.text
  {
    hide HP.FlushMachine;
    assert d.text + "" == d.text && d.tools + [] == d.tools && [] + d.tools == d.tools;
    assert o.tools + [] == o.tools;
  }

  lemma FrontFacts(call: Call, pre: string, first: string, more: string, later: string)
    requires more == first + later
    requires NoControl(pre + (CallText(call) + more)) && NoHeaderBefore(pre + (CallText(call) + more), |pre|)
    ensures NoControl(pre + (CallText(call) + first)) && NoHeaderBefore(pre + (CallText(call) + first), |pre|)
  {
    hide *;
    var whole := pre + (CallText(call) + first);
    assert "" + whole + later == pre + (CallText(call) + more);
    NoControlInPart("", whole, later);
    NoHeaderInPart("", whole, later, |pre|);
  }

  // ----- The blocks -----

  /** On top of these blocks there is one more text block with this text, and it is open; none if there is no text. */
  predicate OnTop(base: seq<Block>, out: Shown, text: string) {
    if text == "" then out.blocks == base && !out.open
    else
      && out.open && |out.blocks| == |base| + 1 && out.blocks[..|base|] == base
      && out.blocks[|base|].kind == TextBlock && Concat(out.blocks[|base|].deltas) == text
  }

  lemma PutOnTop(base: seq<Block>, out: Shown, text: string, more: string)
    requires OnTop(base, out, text) && more != ""
    ensures OnTop(base, PutContent(out, TextBlock, more), text + more)
  {
    assert Concat([more]) == more + Concat([]) == more;
    if text != "" {
      var n := |base|;
      ConcatAppend(out.blocks[n].deltas, more);
      var grown := AddDelta(out.blocks, n, more);
      assert grown[..n] == out.blocks[..n];
    } else {
      assert (base + [Block(TextBlock, [more])])[..|base|] == base && "" + more == more;
    }
  }

  /** Ordinary text goes to one more block. */
  lemma {:induction false} PlainOnTop(base: seq<Block>, out: Shown, done: seq<TP.ContentChunk>, parts: seq<TP.ContentChunk>, json: Json)
    requires ShowAll(done, json) == out && OnTop(base, out, "") && out.m.state == HP.TEXT && out.m.buffer == ""
    requires AllAreText(parts) && NoneEmpty(parts) && Lacks(Concat(Contents(parts)), HP.BULLET) && Lacks(Concat(Contents(parts)), '|')
    ensures var end := ShowAll(done + parts, json);
            OnTop(base, end, Concat(Contents(parts))) && end.m == out.m
    decreases |parts|
  {
    if parts == [] {
      assert done + parts == done && Contents(parts) == [];
    } else {
      var (before, part) := (parts[..|parts| - 1], parts[|parts| - 1]);
      ContentsLast(parts);
      ConcatAppend(Contents(before), part.content);
      LacksBoth(Concat(Contents(before)), part.content, HP.BULLET);
      LacksBoth(Concat(Contents(before)), part.content, '|');
      assert AllAreText(before) && NoneEmpty(before) && part.kind == TP.TEXT && part.content != "";
      assert done + parts == (done + before) + [part];
      hide Lacks, OnTop, AllAreText, NoneEmpty, Contents, Concat, ShowAll;
      PlainOnTop(base, out, done, before, json);
      ShowOneMore(done + before, part, json);
      var now := ShowAll(done + before, json);
      PlainTextPasses(now.m, part.content);
      ShowsText(now, part, json);
      PutOnTop(base, now, Concat(Contents(before)), part.content);
    }
  }

  lemma ShowsText(out: Shown, part: TP.ContentChunk, json: Json)
    requires part.kind == TP.TEXT && part.content != "" && HP.FeedMachine(out.m, part.content) == HP.Outcome(out.m, part.content, [])
    ensures ShowPart(out, part, json) == PutContent(out, TextBlock, part.content)
  {
    hide HP.FeedMachine;
  }

  /** A chunk that ends a call: first its text, then the tool. */
  lemma ToolAfterText(out: Shown, text: string, part: TP.ContentChunk, d: HP.Outcome, tool: HP.ToolUse, json: Json)
    requires TextSoFar(out, text) && part.kind == TP.TEXT && d == HP.FeedMachine(out.m, part.content) && d.tools == [tool]
    requires text + d.text != ""
    ensures var o := ShowPart(out, part, json);
            && |o.blocks| == 2 && !o.open && o.m == d.m
            && o.blocks[0].kind == TextBlock && Concat(o.blocks[0].deltas) == text + d.text && o.blocks[1] == WholeTool(tool, json)
  {
    hide HP.FeedMachine, WholeTool;
    var fed := out.(m := d.m);
    SameText(out, fed, text);
    assert WholeTools([tool], json) == [WholeTool(tool, json)];
    if d.text == "" {
      assert text + d.text == text;
    } else {
      TextGrows(fed, text, d.text);
    }
  }

  /** Text, a tool, and more text if there is any. */
  predicate ShowsAround(blocks: seq<Block>, first: string, tool: Block, last: string) {
    && |blocks| == (if last == "" then 2 else 3)
    && blocks[0].kind == TextBlock && Concat(blocks[0].deltas) == first && blocks[1] == tool
    && (last != "" ==> blocks[2].kind == TextBlock && Concat(blocks[2].deltas) == last)
  }

  /**
   * However the content arrives, text before and after a well-formed call that
   * no chunk cuts short is shown as text, the tool, and text. What comes in one
   * chunk with the end of the call, or first after it, is shown before the tool.
   */
  lemma CallInTheMiddle(blocks: seq<Block>, parts: seq<TP.ContentChunk>, rest: Option<TP.ContentChunk>,
                        pre: string, call: Call, more: string, json: Json)
    requires WellFormed(call) && Aside(more) && CutsWell(call, "", Beyond(|pre|, Contents(parts)))
    requires var content := pre + (CallText(call) + more);
             && TP.NoTagBefore(content, false, |content|) && NoControl(content) && NoHeaderBefore(content, |pre|)
             && Shows(blocks, parts, rest, content, json)
    requires var after := Beyond(|pre| + |CallText(call)|, Contents(parts)); after != [] && !LooksLikeTag(after[0])
    ensures var before := Earlier(|pre| + |Header(call)|, Contents(parts));
            var now := Beyond(|pre| + |CallText(call)|, Contents(parts))[0];
            && now <= more
            && ShowsAround(WithoutIds(blocks), ShownBefore(pre, before) + (GapsOf(call.params) + now),
                           WholeTool(ToolOf(call), json), more[|now|..])
  {
    hide *;
    var content := pre + (CallText(call) + more);
    ShowsBy(blocks, parts, rest, content, json);
    var tail := AnswerParts(parts, rest, content);
    var pieces := Contents(parts);
    var fed := FedMore(call, pre, more, pieces, tail);
    var front, piece, later := EndingPiece(call, pre, fed, pieces);
    var now := Beyond(|pre| + |CallText(call)|, pieces)[0];
    var a, p, c := SplitParts(parts, front, piece, later);
    NotEmptyParts(parts, rest, content, a, p, c);
    FedAsPieces(a);
    TextOnly(a, json);
    FedMachine(a, json);
    var out := ShowAll(a, json);
    var d := HP.FeedMachine(out.m, p.content);
    SomeText(ShownBefore(pre, Earlier(|pre| + |Header(call)|, pieces)), GapsOf(call.params), now,
             Beyond(|pre| + |CallText(call)|, pieces));
    ToolAfterText(out, FedAll(a).text, p, d, ToolOf(call), json);
    ShowOneMore(a, p, json);
    var mid := ShowAll(a + [p], json);
    TopIsEmpty(mid);
    AsideRest(more, fed, tail, now, Concat(later));
    PlainOnTop(mid.blocks, mid, a + [p], c, json);
    EndsAround(mid, ShowAll(parts, json), Concat(later), rest, tail, ShownBefore(pre, Earlier(|pre| + |Header(call)|, pieces))
               + (GapsOf(call.params) + now), WholeTool(ToolOf(call), json), more[|now|..], json);
  }

  lemma FedMore(call: Call, pre: string, more: string, pieces: seq<string>, tail: string) returns (fed: string)
    requires pre + (CallText(call) + more) == Concat(pieces) + tail && Aside(more)
    requires WellFormed(call) && NoControl(pre + (CallText(call) + more)) && NoHeaderBefore(pre + (CallText(call) + more), |pre|)
    requires Beyond(|pre| + |CallText(call)|, pieces) != []
    ensures Concat(pieces) == pre + (CallText(call) + fed) && more == fed + tail && Aside(fed)
    ensures NoControl(Concat(pieces)) && NoHeaderBefore(Concat(pieces), |pre|)
  {
    hide *;
    var n := |pre| + |CallText(call)|;
    BeyondFits(n, pieces);
    fed := Concat(pieces)[n..];
    CutAfter(pre, CallText(call), more, Concat(pieces), tail, fed);
    AsidePartsOf(more, fed, tail);
    FrontFacts(call, pre, fed, more, tail);
  }

  lemma CutAfter(pre: string, call: string, more: string, s: string, tail: string, fed: string)
    requires pre + (call + more) == s + tail && |s| > |pre| + |call| && fed == s[|pre| + |call|..]
    ensures s == pre + (call + fed) && more == fed + tail
  {
    var b := pre + call;
    assert pre + (call + more) == b + more;
    assert s == (s + tail)[..|s|] && s[..|b|] == (b + more)[..|b|] == b;
    assert s == b + fed && b + fed == pre + (call + fed);
    assert (b + more)[|b|..] == more && (s + tail)[|b|..] == fed + tail;
  }

  lemma SplitParts(parts: seq<TP.ContentChunk>, front: seq<string>, piece: string, later: seq<string>)
    returns (a: seq<TP.ContentChunk>, p: TP.ContentChunk, c: seq<TP.ContentChunk>)
    requires Contents(parts) == front + [piece] + later
    ensures parts == a + [p] + c && Contents(a) == front && p.content == piece && Contents(c) == later
  {
    var k := |front|;
    assert |parts| == |Contents(parts)| == k + 1 + |later|;
    a, p, c := parts[..k], parts[k], parts[k + 1..];
    assert Contents(parts)[k] == piece;
    assert Contents(a) == Contents(parts)[..k] && Contents(c) == Contents(parts)[k + 1..];
  }

  lemma NotEmptyParts(parts: seq<TP.ContentChunk>, rest: Option<TP.ContentChunk>, content: string,
                      a: seq<TP.ContentChunk>, p: TP.ContentChunk, c: seq<TP.ContentChunk>)
    requires PartsOf(parts, rest, content) && AllAreText(parts) && parts == a + [p] + c
    ensures AllAreText(a) && p.kind == TP.TEXT && AllAreText(c) && NoneEmpty(c)
  {
    hide TP.Flat, TP.Scan, TP.Waiting;
    assert forall k :: 0 <= k < |a| ==> parts[k] == a[k];
    assert parts[|a|] == p && forall k :: 0 <= k < |c| ==> parts[|a| + 1 + k] == c[k];
  }

  lemma SomeText(shown: string, gaps: string, now: string, after: seq<string>)
    requires after != [] && now == after[0] && now != ""
    ensures shown + (gaps + now) != ""
  {
  }

  lemma TopIsEmpty(mid: Shown)
    requires !mid.open
    ensures OnTop(mid.blocks, mid, "")
  {
  }

  lemma AsideRest(more: string, fed: string, tail: string, now: string, later: string)
    requires Aside(more) && more == fed + tail && now <= fed && later == fed[|now|..]
    ensures Lacks(later, HP.BULLET) && Lacks(later, '|') && more[|now|..] == later + tail
  {
    assert fed == now + later;
    LacksBoth(fed, tail, HP.BULLET);
    LacksBoth(fed, tail, '|');
    LacksBoth(now, later, HP.BULLET);
    LacksBoth(now, later, '|');
    assert (now + later + tail)[|now|..] == later + tail;
  }

  lemma EndsAround(mid: Shown, out: Shown, later: string, rest: Option<TP.ContentChunk>, tail: string,
                   first: string, tool: Block, last: string, json: Json)
    requires |mid.blocks| == 2 && mid.blocks[0].kind == TextBlock && Concat(mid.blocks[0].deltas) == first && mid.blocks[1] == tool
    requires OnTop(mid.blocks, out, later) && out.m == mid.m && out.m.state == HP.TEXT
    requires tail == (if rest.Some? then rest.value.content else "") && (rest.Some? ==> rest.value.kind == TP.TEXT && tail != "")
    requires last == later + tail
    ensures ShowsAround(ShowBlank(ShowRest(out, rest, json)).blocks, first, tool, last)
  {
    FlushText(out.m);
    hide HP.FlushMachine;
    var end := if rest.Some? then PutContent(out, TextBlock, tail) else out;
    if rest.Some? { PutOnTop(mid.blocks, out, later, tail); } else { assert later + "" == later; }
    assert OnTop(mid.blocks, end, last);
    assert ShowRest(out, rest, json) == end;
    hide OnTop, PutContent;
    OnTopHas(mid.blocks, end, last);
  }

  lemma OnTopHas(base: seq<Block>, out: Shown, text: string)
    requires OnTop(base, out, text) && |base| == 2 && base[0].kind == TextBlock
    ensures out.blocks != [] && out.blocks[..2] == base && out.blocks[0] == base[0] && out.blocks[1] == base[1]
    ensures HasTextBlock(out.blocks) && |out.blocks| == (if text == "" then 2 else 3)
    ensures text != "" ==> out.blocks[2].kind == TextBlock && Concat(out.blocks[2].deltas) == text
  {
    assert out.blocks[..2] == base;
    assert out.blocks[..2][0] == out.blocks[0] && out.blocks[..2][1] == out.blocks[1];
  }

  /**
   * When nothing is fed after the call, or what comes first looks like a tag,
   * the tool comes at the end: after the text, of which only a cut think tag
   * at the very end is left, which bypasses the filter.
   */
  lemma CallAtTheEnd(blocks: seq<Block>, parts: seq<TP.ContentChunk>, rest: Option<TP.ContentChunk>,
                     pre: string, call: Call, more: string, json: Json)
    requires WellFormed(call) && Aside(more) && CutsWell(call, "", Beyond(|pre|, Contents(parts)))
    requires var content := pre + (CallText(call) + more);
             && TP.NoTagBefore(content, false, |content|) && NoControl(content) && NoHeaderBefore(content, |pre|)
             && Shows(blocks, parts, rest, content, json)
    requires var after := Beyond(|pre| + |CallText(call)|, Contents(parts)); after == [] || LooksLikeTag(after[0])
    ensures var before := Earlier(|pre| + |Header(call)|, Contents(parts));
            var tail := if rest.Some? then rest.value.content else "";
            ShowsCall(WithoutIds(blocks), ShownBefore(pre, before) + GapsOf(call.params) + tail, WholeTool(ToolOf(call), json))
  {
    hide *;
    var (content, pieces) := (pre + (CallText(call) + more), Contents(parts));
    ShowsBy(blocks, parts, rest, content, json);
    var tail := AnswerParts(parts, rest, content);
    FedAsPieces(parts);
    if Beyond(|pre| + |CallText(call)|, pieces) == [] {
      CallEndsFed(call, pre, more, parts, rest, tail);
      LastCall(call, pre, pieces);
    } else {
      var fed := FedMore(call, pre, more, pieces, tail);
      HeldAfterCall(call, pre, fed, pieces);
    }
    TextOnly(parts, json);
    FedMachine(parts, json);
    ToolAfterRest(ShowAll(parts, json), FedAll(parts).text, rest, tail, ToolOf(call), json);
  }

  /** A cut tag does not reach into the call, which ends with '>'. */
  lemma CallEndsFed(call: Call, pre: string, more: string, parts: seq<TP.ContentChunk>, rest: Option<TP.ContentChunk>, tail: string)
    requires var content := pre + (CallText(call) + more);
             && PartsOf(parts, rest, content) && content == Concat(Contents(parts)) + tail
             && NoControl(content) && NoHeaderBefore(content, |pre|)
    requires tail == (if rest.Some? then rest.value.content else "") && Beyond(|pre| + |CallText(call)|, Contents(parts)) == []
    ensures Concat(Contents(parts)) == pre + CallText(call)
    ensures NoControl(pre + CallText(call)) && NoHeaderBefore(pre + CallText(call), |pre|)
  {
    CallEnds(call);
    TailIsCut(parts, rest, pre + (CallText(call) + more), tail);
    hide *;
    var s := Concat(Contents(parts));
    NoneBeyond(|pre| + |CallText(call)|, Contents(parts));
    NotIntoCall(pre, CallText(call), more, s, tail);
    WholeFront(pre, CallText(call), more);
  }

  lemma TailIsCut(parts: seq<TP.ContentChunk>, rest: Option<TP.ContentChunk>, content: string, tail: string)
    requires PartsOf(parts, rest, content) && tail == if rest.Some? then rest.value.content else ""
    ensures Lacks(tail, '>')
  {
    hide TP.Scan, TP.Flat, NoneEmpty;
    assert forall i :: 0 <= i < |TP.OPEN_TAG| - 1 ==> TP.OPEN_TAG[i] != '>';
    assert forall i :: 0 <= i < |TP.CLOSE_TAG| - 1 ==> TP.CLOSE_TAG[i] != '>';
  }

  lemma {:induction false} NoneBeyond(n: nat, pieces: seq<string>)
    requires Beyond(n, pieces) == []
    ensures |Concat(pieces)| <= n
    decreases |pieces|
  {
    if pieces != [] { NoneBeyond(n - |pieces[0]|, pieces[1..]); }
  }

  lemma NotIntoCall(pre: string, call: string, more: string, s: string, tail: string)
    requires pre + (call + more) == s + tail && |s| <= |pre| + |call| && Lacks(tail, '>')
    requires call != "" && call[|call| - 1] == '>'
    ensures s == pre + call
  {
    var (b, k) := (pre + call, |pre| + |call| - 1);
    assert pre + (call + more) == b + more;
    assert (b + more)[k] == '>';
    NotInTail(s, tail, k);
    assert |s| == |b| && s == (s + tail)[..|s|] && b == (b + more)[..|b|];
  }

  lemma NotInTail(s: string, tail: string, k: nat)
    requires k < |s + tail| && (s + tail)[k] == '>' && Lacks(tail, '>')
    ensures k < |s|
  {
    assert forall j :: 0 <= j < |tail| ==> (s + tail)[|s| + j] == tail[j];
  }

  lemma HeldAfterCall(call: Call, pre: string, fed: string, pieces: seq<string>)
    requires WellFormed(call) && Aside(fed) && Concat(pieces) == pre + (CallText(call) + fed)
    requires NoControl(Concat(pieces)) && NoHeaderBefore(Concat(pieces), |pre|) && CutsWell(call, "", Beyond(|pre|, pieces))
    requires var after := Beyond(|pre| + |CallText(call)|, pieces); after != [] && LooksLikeTag(after[0])
    ensures var o := FeedPieces(HP.START, pieces);
            && o.tools == [] && HP.FlushMachine(o.m).1 == [ToolOf(call)]
            && o.text == ShownBefore(pre, Earlier(|pre| + |Header(call)|, pieces)) + GapsOf(call.params)
  {
    hide *;
    BeyondFits(|pre| + |CallText(call)|, pieces);
    MoreThere(pre, CallText(call), fed);
    CallIsThere(call, pre, fed, pieces);
    TextAroundCall(call, pre, fed, pieces);
    HeldIs(FeedPieces(HP.START, pieces), fed, Beyond(|pre| + |CallText(call)|, pieces)[0], ToolOf(call), GapsOf(call.params));
  }

  lemma MoreThere(pre: string, call: string, fed: string)
    requires |pre| + |call| < |pre + (call + fed)|
    ensures fed != ""
  {
  }

  lemma HeldIs(o: HP.Outcome, fed: string, first: string, tool: HP.ToolUse, gaps: string)
    requires LooksLikeTag(first) && EndsAs(o, LooksLikeTag(first)) && o.tools + HP.FlushMachine(o.m).1 == [tool]
    ensures o.tools == [] && HP.FlushMachine(o.m).1 == [tool] && gaps + ShownAfter(fed, first) == gaps
  {
    hide HP.FlushMachine;
    assert [] + HP.FlushMachine(o.m).1 == HP.FlushMachine(o.m).1;
  }

  lemma ToolAfterRest(out: Shown, text: string, rest: Option<TP.ContentChunk>, tail: string, tool: HP.ToolUse, json: Json)
    requires TextSoFar(out, text) && HP.FlushMachine(out.m).1 == [tool]
    requires tail == (if rest.Some? then rest.value.content else "") && (rest.Some? ==> rest.value.kind == TP.TEXT && tail != "")
    ensures ShowsCall(ShowBlank(ShowRest(out, rest, json)).blocks, text + tail, WholeTool(tool, json))
  {
    hide HP.FlushMachine, WholeTool;
    if rest.Some? {
      TextGrows(out, text, tail);
      var more := PutContent(out, TextBlock, tail);
      assert WholeTools([tool], json) == [WholeTool(tool, json)];
      HasBlockIn(more.blocks, WholeTool(tool, json));
      assert more.blocks[0].kind == TextBlock;
    } else {
      assert text + "" == text;
      ToolAtEnd(out, text, tool, json);
    }
  }
}
