/**
 * The fallback parser for tool calls that a model writes as text
 * (providers/common/heuristic_tool_parser.py).
 */
module HeuristicParser {
  import opened Text

  const BULLET := '\U{25CF}'
  const FUNC_OPEN := "<function="
  const PARAM_OPEN := "<parameter="
  const PARAM_CLOSE := "</parameter>"
  const CONTROL_OPEN := "<|"
  const CONTROL_CLOSE := "|>"
  const MAX_HEADER := 100

  datatype ParserState = TEXT | MATCHING_FUNCTION | PARSING_PARAMETERS

  datatype ToolUse = ToolUse(name: string, input: map<string, string>)

  // ----- The regular expressions, as leftmost searches -----

  /** How many characters from i on are neither '|' nor '>'. */
  function BodyLen(s: string, i: nat): (n: nat)
    requires i <= |s|
    ensures i + n <= |s|
    decreases |s| - i
  {
    if i < |s| && s[i] != '|' && s[i] != '>' then 1 + BodyLen(s, i + 1) else 0
  }

  /** Length of a sentinel token `<|...|>` with a body of 1 to 80 characters at the head of s, or 0. */
  function ControlLen(s: string): (n: nat)
    ensures n <= |s|
    ensures n > 0 ==> CONTROL_OPEN <= s
  {
    if !(CONTROL_OPEN <= s) then 0
    else
      var body := BodyLen(s, 2);
      if 1 <= body <= 80 && OccursAt(s, CONTROL_CLOSE, 2 + body) then body + 4 else 0
  }

  /** Removes every complete sentinel token, left to right. */
  function StripControlTokens(s: string): string
    decreases |s|
  {
    if s == "" then ""
    else if ControlLen(s) > 0 then StripControlTokens(s[ControlLen(s)..])
    else [s[0]] + StripControlTokens(s[1..])
  }

  datatype FuncMatch = FuncMatch(name: string, end: nat)

  /** `●\s*<function=([^>]+)>` at position i */
  function FuncAt(s: string, i: nat): (m: Option<FuncMatch>)
    ensures m.Some? ==> i < m.value.end <= |s|
  {
    if i >= |s| || s[i] != BULLET then None
    else
      var j := SkipSpaces(s, i + 1);
      if !OccursAt(s, FUNC_OPEN, j) then None
      else
        var k := j + |FUNC_OPEN|;
        var e := IndexOf(s, '>', k);
        if e > k then Some(FuncMatch(s[k..e], e + 1)) else None
  }

  function FuncSearch(s: string, from: nat): (m: Option<FuncMatch>)
    requires from <= |s|
    ensures m.Some? ==> 0 < m.value.end <= |s|
    decreases |s| - from
  {
    if FuncAt(s, from).Some? then FuncAt(s, from)
    else if from == |s| then None
    else FuncSearch(s, from + 1)
  }

  datatype ParamMatch = ParamMatch(start: nat, key: string, value: string, end: nat)

  /** Where `$` first matches at or after k: the end, or just before a final newline. */
  function DollarFrom(s: string, k: nat): (d: nat)
    requires k <= |s|
    ensures k <= d <= |s|
  {
    if k < |s| && s[|s| - 1] == '\n' then |s| - 1 else |s|
  }

  /** `<parameter=([^>]+)>(.*?)(?:</parameter>|$)` at position i, with `.` matching newlines */
  function ParamAt(s: string, i: nat): (m: Option<ParamMatch>)
    ensures m.Some? ==> m.value.start == i && i < m.value.end <= |s|
  {
    if !OccursAt(s, PARAM_OPEN, i) then None
    else
      var k := i + |PARAM_OPEN|;
      var e := IndexOf(s, '>', k);
      if e <= k then None
      else
        var close := FindFrom(s, PARAM_CLOSE, e + 1);
        var dollar := DollarFrom(s, e + 1);
        if close != -1 && close <= dollar
        then Some(ParamMatch(i, s[k..e], s[e + 1..close], close + |PARAM_CLOSE|))
        else Some(ParamMatch(i, s[k..e], s[e + 1..dollar], dollar))
  }

  function ParamSearch(s: string, from: nat): (m: Option<ParamMatch>)
    requires from <= |s|
    ensures m.Some? ==> m.value.start < m.value.end <= |s|
    decreases |s| - from
  {
    if ParamAt(s, from).Some? then ParamAt(s, from)
    else if from == |s| then None
    else ParamSearch(s, from + 1)
  }

  /** The leftmost parameter, if its match contains a closing tag. */
  function ClosedParam(s: string): (m: Option<ParamMatch>)
    ensures m.Some? ==> m.value.start < m.value.end <= |s|
  {
    var m := ParamSearch(s, 0);
    if m.Some? && Find(s[m.value.start..m.value.end], PARAM_CLOSE) != -1 then m else None
  }

  /** `<parameter=([^>]+)>(.*)$` at or after `from`: an unfinished parameter takes all the rest. */
  function OpenParam(s: string, from: nat): Option<(string, string)>
    requires from <= |s|
    decreases |s| - from
  {
    var k := from + |PARAM_OPEN|;
    if OccursAt(s, PARAM_OPEN, from) && IndexOf(s, '>', k) > k then
      var e := IndexOf(s, '>', k);
      Some((s[k..e], s[e + 1..]))
    else if from == |s| then None
    else OpenParam(s, from + 1)
  }

  // ----- The parser as a state machine -----

  datatype Machine = Machine(state: ParserState, buffer: string, name: string, params: map<string, string>)

  const START := Machine(TEXT, "", "", map[])

  /** What a run of the machine leaves behind. */
  datatype Outcome = Outcome(m: Machine, text: string, tools: seq<ToolUse>)

  function Before(text: string, tools: seq<ToolUse>, o: Outcome): Outcome {
    Outcome(o.m, text + o.text, tools + o.tools)
  }

  function Rank(state: ParserState): nat {
    match state case PARSING_PARAMETERS => 2 case TEXT => 1 case MATCHING_FUNCTION => 0
  }

  /** Takes every closed parameter off the buffer; text between them passes through. */
  function TakeParams(m: Machine): (o: Outcome)
    ensures o.m.state == m.state && o.m.name == m.name && o.tools == []
    ensures |o.m.buffer| <= |m.buffer| && ClosedParam(o.m.buffer).None?
    decreases |m.buffer|
  {
    var p := ClosedParam(m.buffer);
    if p.None? then Outcome(m, "", [])
    else
      var next := m.(buffer := m.buffer[p.value.end..],
                     params := m.params[Strip(p.value.key) := Strip(p.value.value)]);
      Before(m.buffer[..p.value.start], [], TakeParams(next))
  }

  /** The buffer after its closed parameters cannot belong to the current call any more. */
  predicate CallIsOver(buffer: string) {
    || BULLET in buffer
    || (buffer != "" && !("<" <= Strip(buffer)) && Find(buffer, PARAM_OPEN) == -1)
  }

  /** What the end of a call releases: text up to the next bullet, or all of it. */
  function SplitAtBullet(buffer: string): (r: (string, string))
    ensures |r.1| <= |buffer|
  {
    var idx := IndexOf(buffer, BULLET, 0);
    if idx == -1 then (buffer, "") else (buffer[..idx], buffer[idx..])
  }

  /** In plain text without a bullet: the part released, and an unfinished sentinel kept back. */
  function SplitSentinelTail(buffer: string): (r: (string, string)) {
    var start := RFind(buffer, CONTROL_OPEN);
    if start > 0 && FindFrom(buffer, CONTROL_CLOSE, start) == -1
    then (buffer[..start], buffer[start..])
    else (buffer, "")
  }

  /** Runs the machine until it needs more input. */
  function Drive(m: Machine): Outcome
    decreases |m.buffer|, Rank(m.state)
  {
    match m.state
    case TEXT =>
      if BULLET in m.buffer then
        var (text, rest) := SplitAtBullet(m.buffer);
        Before(text, [], Drive(m.(state := MATCHING_FUNCTION, buffer := rest)))
      else
        var (text, rest) := SplitSentinelTail(m.buffer);
        Outcome(m.(buffer := rest), text, [])
    case MATCHING_FUNCTION =>
      var f := FuncSearch(m.buffer, 0);
      if f.Some? then
        Drive(Machine(PARSING_PARAMETERS, m.buffer[f.value.end..], Strip(f.value.name), map[]))
      else if |m.buffer| > MAX_HEADER then
        Before(m.buffer[..1], [], Drive(m.(state := TEXT, buffer := m.buffer[1..])))
      else
        Outcome(m, "", [])
    case PARSING_PARAMETERS =>
      var o := TakeParams(m);
      if CallIsOver(o.m.buffer) then
        var (text, rest) := SplitAtBullet(o.m.buffer);
        Before(o.text + text, [ToolUse(m.name, o.m.params)], Drive(o.m.(state := TEXT, buffer := rest)))
      else
        o
  }

  function FeedMachine(m: Machine, text: string): Outcome {
    Drive(m.(buffer := StripControlTokens(m.buffer + text)))
  }

  function FlushMachine(m: Machine): (r: (Machine, seq<ToolUse>)) {
    var buffer := StripControlTokens(m.buffer);
    if m.state == PARSING_PARAMETERS then
      var p := OpenParam(buffer, 0);
      var params := if p.Some? then m.params[Strip(p.value.0) := Strip(p.value.1)] else m.params;
      (Machine(TEXT, "", m.name, params), [ToolUse(m.name, params)])
    else
      (m.(buffer := buffer), [])
  }

  lemma BeforeBefore(t1: string, u1: seq<ToolUse>, t2: string, u2: seq<ToolUse>, o: Outcome)
    ensures Before(t1, u1, Before(t2, u2, o)) == Before(t1 + t2, u1 + u2, o)
  {
  }

  lemma BeforeNothing(o: Outcome)
    ensures Before("", [], o) == o
  {
  }

  /** One step of a run: it either stops the run or leaves a smaller rest of it. */
  ghost predicate Steps(m: Machine, m': Machine, text: string, tools: seq<ToolUse>, stop: bool) {
    if stop then Drive(m) == Outcome(m', text, tools)
    else
      && Drive(m) == Before(text, tools, Drive(m'))
      && |m'.buffer| <= |m.buffer|
      && (|m'.buffer| == |m.buffer| ==> Rank(m'.state) < Rank(m.state))
  }

  lemma BeforeStep(m: Machine, f: string, d: seq<ToolUse>, m': Machine, text: string, tools: seq<ToolUse>, stop: bool)
    requires Steps(m, m', text, tools, stop)
    ensures Before(f, d, Drive(m))
         == if stop then Outcome(m', f + text, d + tools) else Before(f + text, d + tools, Drive(m'))
  {
    hide Drive;
  }

  /** One round with parameters: what was taken, and then the call is over or more is awaited. */
  lemma ParametersStep(m: Machine, o: Outcome)
    requires m.state == PARSING_PARAMETERS && o == TakeParams(m)
    ensures CallIsOver(o.m.buffer) ==>
              var (text, rest) := SplitAtBullet(o.m.buffer);
              Steps(m, o.m.(state := TEXT, buffer := rest), o.text + text, [ToolUse(m.name, o.m.params)], false)
    ensures !CallIsOver(o.m.buffer) ==> Steps(m, o.m, o.text, [], true)
  {
    hide TakeParams, CallIsOver;
  }

  class HeuristicToolParser {
    var state: ParserState
    var buffer: string
    var currentFunctionName: string
    var currentParameters: map<string, string>

    function View(): Machine
      reads this
    {
      Machine(state, buffer, currentFunctionName, currentParameters)
    }

    constructor ()
      ensures View() == START
    {
      state, buffer, currentFunctionName, currentParameters := TEXT, "", "", map[];
    }

    /**
     * Keeps an unfinished sentinel in the buffer and returns the text before
     * it; an empty result leaves the buffer to be released whole.
     */
    method SplitIncompleteControlTokenTail() returns (prefix: string)
      modifies this`buffer
      ensures SplitSentinelTail(old(buffer)) == if prefix != "" then (prefix, buffer) else (buffer, "")
    {
      prefix := "";
      var start := RFind(buffer, CONTROL_OPEN);
      if start == -1 {
        return;
      }
      var end := FindFrom(buffer, CONTROL_CLOSE, start);
      if end != -1 {
        return;
      }
      prefix := buffer[..start];
      buffer := buffer[start..];
    }

    /**
     * Appends the text, drops complete sentinels and runs the machine until
     * it needs more input: the text released and the calls completed.
     */
    method Feed(text: string) returns (filtered: string, detected: seq<ToolUse>)
      modifies this
      ensures Outcome(View(), filtered, detected) == FeedMachine(old(View()), text)
    {
      hide Drive;
      buffer := buffer + text;
      buffer := StripControlTokens(buffer);
      filtered, detected := "", [];
      ghost var goal := Drive(View());
      var stop := false;
      while !stop
        invariant goal == if stop then Outcome(View(), filtered, detected) else Before(filtered, detected, Drive(View()))
        decreases !stop, |buffer|, Rank(state)
      {
        ghost var m0, f0, d0 := View(), filtered, detected;
        if state == TEXT {
          var released;
          released, stop := StepText();
          BeforeStep(m0, f0, d0, View(), released, [], stop);
          filtered := filtered + released;
        } else if state == MATCHING_FUNCTION {
          var released;
          released, stop := StepMatching();
          BeforeStep(m0, f0, d0, View(), released, [], stop);
          filtered := filtered + released;
        } else {
          var released, finished;
          released, finished, stop := StepParameters();
          BeforeStep(m0, f0, d0, View(), released, finished, stop);
          filtered := filtered + released;
          detected := detected + finished;
        }
      }
    }

    /** Looks for the trigger character. */
    method StepText() returns (released: string, stop: bool)
      requires state == TEXT
      modifies this`buffer, this`state
      ensures Steps(old(View()), View(), released, [], stop)
    {
      if BULLET in buffer {
        var idx := IndexOf(buffer, BULLET, 0);
        released := buffer[..idx];
        buffer := buffer[idx..];
        state := MATCHING_FUNCTION;
        stop := false;
      } else {
        var safePrefix := SplitIncompleteControlTokenTail();
        if safePrefix != "" {
          return safePrefix, true;
        }
        released := buffer;
        buffer := "";
        stop := true;
      }
    }

    /** Looks for the function tag; gives up on a buffer that has grown too long. */
    method StepMatching() returns (released: string, stop: bool)
      requires state == MATCHING_FUNCTION
      modifies this
      ensures Steps(old(View()), View(), released, [], stop)
    {
      hide TakeParams, CallIsOver, SplitAtBullet, SplitSentinelTail;
      released, stop := "", false;
      var f := FuncSearch(buffer, 0);
      if f.Some? {
        currentFunctionName := Strip(f.value.name);
        currentParameters := map[];
        buffer := buffer[f.value.end..];
        state := PARSING_PARAMETERS;
        BeforeNothing(Drive(View()));
      } else if |buffer| > MAX_HEADER {
        released := [buffer[0]];
        buffer := buffer[1..];
        state := TEXT;
      } else {
        stop := true;
      }
    }

    /** Collects parameters, and ends the call at a bullet or at text that is no tag. */
    method StepParameters() returns (released: string, finished: seq<ToolUse>, stop: bool)
      requires state == PARSING_PARAMETERS
      modifies this
      ensures Steps(old(View()), View(), released, finished, stop)
    {
      var finishedToolCall := false;
      hide TakeParams, Drive, IndexOf, Strip, FindFrom, FuncSearch;
      ghost var m := View();
      released := ConsumeClosedParams();
      ParametersStep(m, Outcome(View(), released, []));
      finished, stop := [], true;
      if BULLET in buffer {
        var idx := IndexOf(buffer, BULLET, 0);
        if idx > 0 {
          released := released + buffer[..idx];
          buffer := buffer[idx..];
        }
        finishedToolCall := true;
      } else if |buffer| > 0 && !("<" <= Strip(buffer)) {
        if Find(buffer, PARAM_OPEN) == -1 {
          released := released + buffer;
          buffer := "";
          finishedToolCall := true;
        }
      }
      if finishedToolCall {
        finished := [ToolUse(currentFunctionName, currentParameters)];
        state := TEXT;
        stop := false;
      }
    }

    /** The inner loop: takes the closed parameters and returns the text found between them. */
    method ConsumeClosedParams() returns (between: string)
      modifies this`buffer, this`currentParameters
      ensures Outcome(View(), between, []) == TakeParams(old(View()))
    {
      between := "";
      ghost var goal := TakeParams(View());
      while true
        invariant goal == Before(between, [], TakeParams(View()))
        invariant state == old(state) && currentFunctionName == old(currentFunctionName)
        decreases |buffer|
      {
        ghost var m0, b0 := View(), between;
        var m := ParamSearch(buffer, 0);
        if m.Some? && Find(buffer[m.value.start..m.value.end], PARAM_CLOSE) != -1 {
          between := between + buffer[..m.value.start];
          currentParameters := currentParameters[Strip(m.value.key) := Strip(m.value.value)];
          buffer := buffer[m.value.end..];
          assert TakeParams(m0) == Before(m0.buffer[..m.value.start], [], TakeParams(View()));
          BeforeBefore(b0, [], m0.buffer[..m.value.start], [], TakeParams(View()));
        } else {
          break;
        }
      }
    }

    /** A call still open gives its last tool; in the other states the buffer is simply kept. */
    method Flush() returns (detected: seq<ToolUse>)
      modifies this
      ensures (View(), detected) == FlushMachine(old(View()))
    {
      buffer := StripControlTokens(buffer);
      detected := [];
      if state == PARSING_PARAMETERS {
        var p := OpenParam(buffer, 0);
        if p.Some? {
          currentParameters := currentParameters[Strip(p.value.0) := Strip(p.value.1)];
        }
        detected := [ToolUse(currentFunctionName, currentParameters)];
        state := TEXT;
        buffer := "";
      }
    }
  }
}
