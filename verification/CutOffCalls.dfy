/**
 * What the text tool-call parser makes of a call that the end of the message
 * cuts off (providers/common/heuristic_tool_parser.py).
 */
module CutOffCalls {
  import opened Text
  import opened HeuristicParser
  import opened HeuristicText
  import opened HeuristicCalls

  /** The call with one more parameter. */
  function With(call: Call, p: Param): Call {
    Call(call.space, call.name, call.params + [p])
  }

  /** A parameter without its closing tag. */
  function Unclosed(p: Param): string {
    HeadText(p) + p.value
  }

  lemma WithText(call: Call, p: Param)
    ensures CallText(With(call, p)) == CallText(call) + ParamText(p)
    ensures ParamText(p) == Unclosed(p) + PARAM_CLOSE
  {
    var all := With(call, p).params;
    assert [p][0] == p && ParamsText([p]) == ParamText(p) + "" == ParamText(p);
    ParamsTextConcat(call.params, [p]);
    hide ParamsText, ParamText;
    assert Header(call) + (ParamsText(call.params) + ParamText(p)) == CallText(call) + ParamText(p);
    ParamSplits(p);
  }

  lemma ParamSplits(p: Param)
    ensures ParamText(p) == Unclosed(p) + PARAM_CLOSE
  {
    var (a, b, c) := (p.gap, PARAM_OPEN + p.key + ">", p.value);
    assert a + (b + c + PARAM_CLOSE) == a + b + c + PARAM_CLOSE;
    assert a + PARAM_OPEN + p.key + ">" == a + (PARAM_OPEN + p.key + ">");
  }

  /** When a beginning of the last parameter has been fed, just that is left in the buffer. */
  lemma LeftInBuffer(call: Call, p: Param, rest: string, m: Machine, text: string)
    requires WellFormed(With(call, p)) && rest <= ParamText(p) && |rest| < |ParamText(p)|
    requires After(With(call, p), CallText(call) + rest, m, text)
    ensures m.state == PARSING_PARAMETERS && m.buffer == rest && m.name == Strip(call.name)
    ensures m.params == ParamMap(call.params, map[]) && text == GapsOf(call.params)
  {
    var (whole, s) := (With(call, p), CallText(call) + rest);
    var n: nat :| CompletedTo(whole, s, m, n, text);
    WithText(call, p);
    assert n < |call.params| ==> whole.params[..n] == call.params[..n] && whole.params[n] == call.params[n];
    assert whole.params[..|call.params|] == call.params && whole.params[..|call.params| + 1] == whole.params;
    if n < |call.params| { LongEnough(call, n); }
    hide ParamsText, ParamText;
    assert n == |call.params|;
    assert s == CallText(call) + m.buffer;
    assert s[|CallText(call)|..] == rest;
  }

  lemma {:induction false} OpenParamHere(rest: string, p: Param, from: nat)
    requires WellFormedParam(p) && rest == Unclosed(p) && from <= |p.gap|
    ensures OpenParam(rest, from) == Some((p.key, p.value))
    decreases |p.gap| - from
  {
    if from < |p.gap| {
      NotInGap(rest, p, from);
      OpenParamHere(rest, p, from + 1);
      hide WellFormedParam, Unclosed;
    } else {
      OpenParamAfterGap(rest, p);
    }
  }

  lemma NotInGap(rest: string, p: Param, from: nat)
    requires WellFormedParam(p) && rest == Unclosed(p) && from < |p.gap|
    ensures from < |rest| && !OccursAt(rest, PARAM_OPEN, from)
  {
    assert IsSpace(p.gap[from]) && rest[from] == p.gap[from] != PARAM_OPEN[0];
    OccursChar(rest, PARAM_OPEN, from, 0);
  }

  lemma OpenParamAfterGap(rest: string, p: Param)
    requires WellFormedParam(p) && rest == Unclosed(p)
    ensures |p.gap| <= |rest| && OpenParam(rest, |p.gap|) == Some((p.key, p.value))
  {
    hide *;
    var k := |p.gap| + |PARAM_OPEN|;
    KeyOf(p);
    UnclosedParts(rest, p);
    KeyEnds(rest, k, p.key);
    OpenParamAt(rest, |p.gap|, k + |p.key|);
  }

  lemma KeyOf(p: Param)
    requires WellFormedParam(p)
    ensures p.key != "" && Lacks(p.key, '>')
  {
  }

  lemma KeyEnds(s: string, k: nat, key: string)
    requires k + |key| < |s| && s[k..k + |key|] == key && s[k + |key|] == '>' && Lacks(key, '>')
    ensures IndexOf(s, '>', k) == k + |key|
  {
    assert forall j :: k <= j < k + |key| ==> s[j] == s[k..k + |key|][j - k];
    IndexExactly(s, '>', k, k + |key|);
  }

  lemma OpenParamAt(s: string, from: nat, end: nat)
    requires from + |PARAM_OPEN| < end < |s| && OccursAt(s, PARAM_OPEN, from) && IndexOf(s, '>', from + |PARAM_OPEN|) == end
    ensures OpenParam(s, from) == Some((s[from + |PARAM_OPEN|..end], s[end + 1..]))
  {
  }

  lemma UnclosedParts(rest: string, p: Param)
    requires rest == Unclosed(p)
    ensures var k := |p.gap| + |PARAM_OPEN|;
            && |rest| == k + |p.key| + 1 + |p.value| && OccursAt(rest, PARAM_OPEN, |p.gap|)
            && rest[k..k + |p.key|] == p.key && rest[k + |p.key|] == '>' && rest[k + |p.key| + 1..] == p.value
  {
    assert rest[|p.gap|..|p.gap| + |PARAM_OPEN|] == PARAM_OPEN;
  }

  /**
   * A call whose last parameter is cut off before its closing tag, in any
   * pieces that leave no white space alone: nothing of the parameter is
   * released, and the flush gives the one tool, with what there is of it.
   */
  lemma CutOffInValue(call: Call, p: Param, pieces: seq<string>)
    requires WellFormed(With(call, p)) && CutsWell(With(call, p), "", pieces)
    requires Concat(pieces) == CallText(call) + (p.gap + "<parameter=" + p.key + ">" + p.value)
    ensures var o := FeedPieces(START, pieces);
            && o.text == GapsOf(call.params) && o.tools == []
            && FlushMachine(o.m).1 == [ToolUse(Strip(call.name), ToolOf(call).input[Strip(p.key) := Strip(p.value)])]
  {
    hide *;
    var rest := Unclosed(p);
    UnclosedIs(p);
    FedToEnd(call, p, rest, pieces);
    var o := FeedPieces(START, pieces);
    NothingToStrip(call, p, rest);
    LastIsWellFormed(call, p);
    OpenParamHere(rest, p, 0);
    FlushedWith(o.m, rest, p);
    ToolIs(call);
  }

  lemma UnclosedIs(p: Param)
    ensures p.gap + "<parameter=" + p.key + ">" + p.value == Unclosed(p)
    ensures Unclosed(p) <= ParamText(p) && |Unclosed(p)| < |ParamText(p)|
  {
    ParamSplits(p);
    hide ParamText;
  }

  lemma ToolIs(call: Call)
    ensures ToolOf(call) == ToolUse(Strip(call.name), ParamMap(call.params, map[]))
  {
  }

  lemma LastIsWellFormed(call: Call, p: Param)
    requires WellFormed(With(call, p))
    ensures WellFormedParam(p)
  {
    assert With(call, p).params[|call.params|] == p;
  }

  lemma FlushedWith(m: Machine, rest: string, p: Param)
    requires m.state == PARSING_PARAMETERS && m.buffer == rest == StripControlTokens(rest)
    requires OpenParam(rest, 0) == Some((p.key, p.value))
    ensures FlushMachine(m).1 == [ToolUse(m.name, m.params[Strip(p.key) := Strip(p.value)])]
  {
    hide StripControlTokens, OpenParam, Strip;
  }

  lemma NothingToStrip(call: Call, p: Param, rest: string)
    requires WellFormed(With(call, p)) && rest <= ParamText(p)
    ensures StripControlTokens(rest) == rest
  {
    WithText(call, p);
    hide CallText, ParamText, StripControlTokens;
    var more := ParamText(p)[|rest|..];
    assert CallText(call) + rest + more == CallText(With(call, p));
    NoControlInPart(CallText(call), rest, more);
    NoControlNoStrip(rest);
  }

  /** Where the parser stands when the pieces of a call with the beginning of one more parameter have been fed. */
  lemma FedToEnd(call: Call, p: Param, rest: string, pieces: seq<string>)
    requires WellFormed(With(call, p)) && CutsWell(With(call, p), "", pieces)
    requires rest <= ParamText(p) && |rest| < |ParamText(p)| && Concat(pieces) == CallText(call) + rest
    ensures var o := FeedPieces(START, pieces);
            && o.text == GapsOf(call.params) && o.tools == []
            && o.m.state == PARSING_PARAMETERS && o.m.buffer == rest && o.m.name == Strip(call.name)
            && o.m.params == ParamMap(call.params, map[])
  {
    WithText(call, p);
    var o := FeedPieces(START, pieces);
    var s := CallText(call) + rest;
    assert "" + Concat(pieces) == s && "" + o.text == o.text;
    hide CallText, ParamText, CutsWell, FeedPieces, GapsOf, ParamMap;
    FrontOfCall(CallText(call), rest, ParamText(p));
    assert After(With(call, p), "", START, "");
    FeedWell(With(call, p), "", START, "", pieces);
    LeftInBuffer(call, p, rest, o.m, o.text);
  }

  lemma FrontOfCall(a: string, rest: string, b: string)
    requires rest <= b
    ensures a + rest <= a + b
  {
  }

  /** Cut off before the '>' after its key, the last parameter is dropped. */
  lemma CutOffInHead(call: Call, p: Param, rest: string, pieces: seq<string>)
    requires WellFormed(With(call, p)) && CutsWell(With(call, p), "", pieces)
    requires rest <= p.gap + "<parameter=" + p.key && Concat(pieces) == CallText(call) + rest
    ensures var o := FeedPieces(START, pieces);
            o.text == GapsOf(call.params) && o.tools == [] && FlushMachine(o.m).1 == [ToolOf(call)]
  {
    WithText(call, p);
    var o := FeedPieces(START, pieces);
    HeadIsFront(p, rest);
    FedToEnd(call, p, rest, pieces);
    NothingToStrip(call, p, rest);
    hide *;
    LastIsWellFormed(call, p);
    NoParamYet(p, rest);
    FlushedWithout(o.m, rest);
    ToolIs(call);
  }

  lemma HeadIsFront(p: Param, rest: string)
    requires rest <= p.gap + "<parameter=" + p.key
    ensures rest <= ParamText(p) && |rest| < |ParamText(p)|
  {
    var head := p.gap + PARAM_OPEN + p.key;
    assert head + (">" + p.value + PARAM_CLOSE) == ParamText(p);
  }

  lemma FlushedWithout(m: Machine, rest: string)
    requires m.state == PARSING_PARAMETERS && m.buffer == rest == StripControlTokens(rest) && OpenParam(rest, 0).None?
    ensures FlushMachine(m).1 == [ToolUse(m.name, m.params)]
  {
    hide StripControlTokens, OpenParam, Strip;
  }

  lemma NoParamYet(p: Param, rest: string)
    requires WellFormedParam(p) && rest <= p.gap + "<parameter=" + p.key
    ensures OpenParam(rest, 0).None?
  {
    assert forall i :: 0 <= i < |p.gap| ==> p.gap[i] != '>';
    assert Lacks(rest, '>');
    NoParamWithoutEnd(rest, 0);
  }

  lemma {:induction false} NoParamWithoutEnd(rest: string, from: nat)
    requires from <= |rest| && Lacks(rest, '>')
    ensures OpenParam(rest, from).None?
    decreases |rest| - from
  {
    if from < |rest| { NoParamWithoutEnd(rest, from + 1); }
  }
}
