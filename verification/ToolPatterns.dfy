/**
 * What the searches of the text tool-call parser find: exactly the matches of
 * its regular expressions (providers/common/heuristic_tool_parser.py).
 */
module ToolPatterns {
  import opened Text
  import opened HeuristicParser
  import opened HeuristicText

  // ----- The header of a call -----

  /** The header, with this white space and this name, is at i and ends before `end`. */
  ghost predicate IsHeader(s: string, i: nat, end: nat, space: string, name: string) {
    && i < end <= |s| && s[i..end] == "\U{25CF}" + space + "<function=" + name + ">"
    && AllSpace(space) && name != "" && Lacks(name, '>')
  }

  lemma FuncAtExactly(s: string, i: nat, name: string, end: nat)
    ensures FuncAt(s, i) == Some(FuncMatch(name, end)) <==> exists space :: IsHeader(s, i, end, space, name)
  {
    if FuncAt(s, i) == Some(FuncMatch(name, end)) {
      var j, e := FuncHere(s, i);
      hide FuncAt;
      FoundHeader(s, i, j, e);
      assert IsHeader(s, i, end, s[i + 1..j], name);
    }
    if space :| IsHeader(s, i, end, space, name) {
      hide FuncAt;
      HeaderFound(s, i, end, space, name);
    }
  }

  lemma FoundHeader(s: string, i: nat, j: nat, e: nat)
    requires i < j && j + |FUNC_OPEN| < e < |s| && s[i] == BULLET && OccursAt(s, FUNC_OPEN, j)
    requires SkipSpaces(s, i + 1) == j && IndexOf(s, '>', j + |FUNC_OPEN|) == e
    ensures IsHeader(s, i, e + 1, s[i + 1..j], s[j + |FUNC_OPEN|..e])
  {
    var k := j + |FUNC_OPEN|;
    SpacesSkipped(s, i + 1);
    NoEndIn(s, k);
    HeaderSlices(s, i, j, k, e);
    hide SkipSpaces, IndexOf, IsSpace, AllSpace, Lacks;
  }

  lemma HeaderSlices(s: string, i: nat, j: nat, k: nat, e: nat)
    requires i < j && k == j + |FUNC_OPEN| && k < e < |s| && s[i] == BULLET && s[j..k] == FUNC_OPEN && s[e] == '>'
    ensures s[i..e + 1] == "\U{25CF}" + s[i + 1..j] + "<function=" + s[k..e] + ">"
  {
    assert s[i..i + 1] == "\U{25CF}" && s[e..e + 1] == ">";
    hide *;
    SliceJoin(s, i, i + 1, j);
    SliceJoin(s, i, j, k);
    SliceJoin(s, i, k, e);
    SliceJoin(s, i, e, e + 1);
  }

  lemma SliceJoin(s: string, i: nat, j: nat, k: nat)
    requires i <= j <= k <= |s|
    ensures s[i..k] == s[i..j] + s[j..k]
  {
  }

  lemma SpacesSkipped(s: string, from: nat)
    requires from <= |s|
    ensures AllSpace(s[from..SkipSpaces(s, from)])
  {
    hide IsSpace;
  }

  lemma NoEndIn(s: string, from: nat)
    requires from <= |s| && IndexOf(s, '>', from) > from
    ensures var e := IndexOf(s, '>', from); s[e] == '>' && Lacks(s[from..e], '>')
  {
  }

  lemma HeaderFound(s: string, i: nat, end: nat, space: string, name: string)
    requires IsHeader(s, i, end, space, name)
    ensures FuncAt(s, i) == Some(FuncMatch(name, end))
  {
    hide *;
    HeaderIs(s, i, end, space, name);
    HeaderAlone(s[i..end], space, name);
    HeaderMoves(s, i, end, name);
  }

  lemma HeaderMoves(s: string, i: nat, end: nat, name: string)
    requires i <= end <= |s| && FuncAt(s[i..end], 0) == Some(FuncMatch(name, end - i))
    ensures FuncAt(s, i) == Some(FuncMatch(name, end))
  {
    hide *;
    CutOut(s, i, end);
    FuncInPart(s[..i], s[i..end], s[end..], 0);
  }

  lemma HeaderIs(s: string, i: nat, end: nat, space: string, name: string)
    requires IsHeader(s, i, end, space, name)
    ensures i < end <= |s| && s[i..end] == "\U{25CF}" + space + "<function=" + name + ">"
    ensures AllSpace(space) && name != "" && Lacks(name, '>')
  {
  }

  lemma CutOut(s: string, i: nat, end: nat)
    requires i <= end <= |s|
    ensures s == s[..i] + s[i..end] + s[end..] && |s[..i]| == i && |s[i..end]| == end - i
  {
  }

  lemma HeaderAlone(h: string, space: string, name: string)
    requires h == "\U{25CF}" + space + "<function=" + name + ">"
    requires AllSpace(space) && name != "" && Lacks(name, '>')
    ensures FuncAt(h, 0) == Some(FuncMatch(name, |h|))
  {
    var (j, k, e) := (1 + |space|, 1 + |space| + |FUNC_OPEN|, |h| - 1);
    HeaderParts(h, space, name);
    NoSpace();
    hide *;
    SkipExactly(h, 1, j);
    IndexExactly(h, '>', k, e);
    FuncThere(h, 0, j, e);
  }

  lemma NoSpace()
    ensures !IsSpace('<')
  {
  }

  lemma HeaderParts(h: string, space: string, name: string)
    requires h == "\U{25CF}" + space + "<function=" + name + ">"
    requires AllSpace(space) && name != "" && Lacks(name, '>')
    ensures var (j, k, e) := (1 + |space|, 1 + |space| + |FUNC_OPEN|, |h| - 1);
            && k < e && h[0] == BULLET && h[j] == '<' && h[j..k] == FUNC_OPEN && h[k..e] == name && h[e] == '>'
            && (forall x :: 1 <= x < j ==> IsSpace(h[x])) && (forall x :: k <= x < e ==> h[x] != '>')
  {
    hide IsSpace;
    assert forall x :: 1 <= x < 1 + |space| ==> h[x] == space[x - 1];
    assert forall x :: 0 <= x < |name| ==> h[1 + |space| + |FUNC_OPEN| + x] == name[x];
  }

  /** The search finds the leftmost header. */
  lemma {:induction false} FuncSearchIs(s: string, from: nat)
    requires from <= |s|
    ensures var m := FuncSearch(s, from);
            if m.Some? then exists i: nat :: from <= i && FuncAt(s, i) == m && forall j :: from <= j < i ==> FuncAt(s, j).None?
            else forall j: nat :: from <= j ==> FuncAt(s, j).None?
    decreases |s| - from
  {
    NoneBeyond(s);
    hide FuncAt;
    if FuncAt(s, from).None? && from < |s| { FuncSearchIs(s, from + 1); }
  }

  lemma NoneBeyond(s: string)
    ensures forall j: nat :: |s| <= j ==> FuncAt(s, j).None? && ParamAt(s, j).None?
  {
  }

  // ----- A parameter -----

  /** The opening tag of a parameter with this key is at i and ends before `end`. */
  ghost predicate IsParamOpen(s: string, i: nat, end: nat, key: string) {
    i < end <= |s| && s[i..end] == "<parameter=" + key + ">" && key != "" && Lacks(key, '>')
  }

  /** A value may end here: before its closing tag, at the end of the text, or before a last newline. */
  predicate ValueEnds(s: string, i: int) {
    OccursAt(s, "</parameter>", i) || i == |s| || (0 <= i == |s| - 1 && s[i] == '\n')
  }

  lemma ParamOpenParts(s: string, i: nat)
    ensures OccursAt(s, PARAM_OPEN, i) && IndexOf(s, '>', i + |PARAM_OPEN|) > i + |PARAM_OPEN| ==>
              var e := IndexOf(s, '>', i + |PARAM_OPEN|);
              IsParamOpen(s, i, e + 1, s[i + |PARAM_OPEN|..e])
    ensures forall end: nat, key :: IsParamOpen(s, i, end, key) ==>
              && OccursAt(s, PARAM_OPEN, i) && i + |PARAM_OPEN| < end - 1
              && IndexOf(s, '>', i + |PARAM_OPEN|) == end - 1 && s[i + |PARAM_OPEN|..end - 1] == key
  {
    var k := i + |PARAM_OPEN|;
    if OccursAt(s, PARAM_OPEN, i) && IndexOf(s, '>', k) > k {
      var e := IndexOf(s, '>', k);
      assert s[i..e + 1] == s[i..k] + s[k..e] + [s[e]];
    }
    forall end: nat, key | IsParamOpen(s, i, end, key)
      ensures OccursAt(s, PARAM_OPEN, i) && k < end - 1 && IndexOf(s, '>', k) == end - 1 && s[k..end - 1] == key
    {
      ParamOpenIs(s, i, end, key);
    }
  }

  lemma TagParts(h: string, key: string)
    requires h == "<parameter=" + key + ">"
    ensures |h| == |PARAM_OPEN| + |key| + 1 && h[|h| - 1] == '>'
    ensures h[..|PARAM_OPEN|] == PARAM_OPEN && h[|PARAM_OPEN|..|h| - 1] == key
  {
    var a := PARAM_OPEN + key;
    assert h == a + ">" && h[..|a|] == a && a[..|PARAM_OPEN|] == PARAM_OPEN;
  }

  lemma SliceOfSlice(s: string, i: nat, j: nat, a: nat, b: nat)
    requires i <= j <= |s| && a <= b <= j - i
    ensures s[i..j][a..b] == s[i + a..i + b]
  {
    var (u, v) := (s[i..j][a..b], s[i + a..i + b]);
    assert |u| == |v| && forall k :: 0 <= k < |u| ==> u[k] == v[k];
  }

  lemma ParamOpenIs(s: string, i: nat, end: nat, key: string)
    requires IsParamOpen(s, i, end, key)
    ensures var k := i + |PARAM_OPEN|;
            OccursAt(s, PARAM_OPEN, i) && k < end - 1 && IndexOf(s, '>', k) == end - 1 && s[k..end - 1] == key
  {
    var (k, h) := (i + |PARAM_OPEN|, s[i..end]);
    TagParts(h, key);
    SliceOfSlice(s, i, end, 0, |PARAM_OPEN|);
    SliceOfSlice(s, i, end, |PARAM_OPEN|, |h| - 1);
    assert forall x :: k <= x < end - 1 ==> s[x] == key[x - k];
    assert s[end - 1] == h[|h| - 1];
    IndexExactly(s, '>', k, end - 1);
  }

  /** The value reaches to the first place where it may end, and its closing tag, if it is there, belongs to the match. */
  ghost predicate IsParam(s: string, i: nat, m: ParamMatch, from: nat, to: nat) {
    && m.start == i && IsParamOpen(s, i, from, m.key)
    && from <= to <= |s| && m.value == s[from..to]
    && ValueEnds(s, to) && (forall j :: from <= j < to ==> !ValueEnds(s, j))
    && m.end == if OccursAt(s, "</parameter>", to) then to + 12 else to
  }

  lemma ParamAtExactly(s: string, i: nat, m: ParamMatch)
    ensures ParamAt(s, i) == Some(m) <==> exists from: nat, to: nat :: IsParam(s, i, m, from, to)
  {
    if ParamAt(s, i) == Some(m) {
      hide *;
      var from, to := ParamParts(s, i, m);
    }
    if from: nat, to: nat :| IsParam(s, i, m, from, to) {
      hide *;
      ParamFound(s, i, m, from, to);
    }
  }

  /** The match, by the ends of its tag and its value. */
  lemma ParamAtIs(s: string, i: nat)
    ensures var k := i + |PARAM_OPEN|;
            if OccursAt(s, PARAM_OPEN, i) && IndexOf(s, '>', k) > k then
              var from := IndexOf(s, '>', k) + 1;
              var to := ValueEnd(s, from);
              && ParamAt(s, i).Some?
              && ParamAt(s, i).value.start == i && ParamAt(s, i).value.key == s[k..from - 1]
              && ParamAt(s, i).value.value == s[from..to]
              && ParamAt(s, i).value.end == if OccursAt(s, PARAM_CLOSE, to) then to + |PARAM_CLOSE| else to
            else ParamAt(s, i).None?
  {
    var k := i + |PARAM_OPEN|;
    if OccursAt(s, PARAM_OPEN, i) && IndexOf(s, '>', k) > k { FirstEnd(s, IndexOf(s, '>', k) + 1); }
    hide IndexOf, FindFrom, DollarFrom, ValueEnds;
  }

  lemma ParamParts(s: string, i: nat, m: ParamMatch) returns (from: nat, to: nat)
    requires ParamAt(s, i) == Some(m)
    ensures IsParam(s, i, m, from, to)
  {
    ParamOpenParts(s, i);
    ParamAtIs(s, i);
    from := IndexOf(s, '>', i + |PARAM_OPEN|) + 1;
    to := ValueEnd(s, from);
    FirstEnd(s, from);
    hide IndexOf, FindFrom, DollarFrom, ValueEnds, IsParamOpen, ValueEnd, ParamAt;
  }

  lemma ParamFound(s: string, i: nat, m: ParamMatch, from: nat, to: nat)
    requires IsParam(s, i, m, from, to)
    ensures ParamAt(s, i) == Some(m)
  {
    ParamOpenIs(s, i, from, m.key);
    ParamAtIs(s, i);
    OnlyOneEnd(s, from, to);
    hide IndexOf, FindFrom, DollarFrom, ValueEnds, IsParamOpen, ValueEnd, ParamAt;
  }

  lemma OnlyOneEnd(s: string, from: nat, to: nat)
    requires from <= to <= |s| && ValueEnds(s, to) && forall j :: from <= j < to ==> !ValueEnds(s, j)
    ensures to == ValueEnd(s, from)
  {
    FirstEnd(s, from);
    hide ValueEnds, ValueEnd;
  }

  function ValueEnd(s: string, from: nat): nat
    requires from <= |s|
  {
    var close := FindFrom(s, PARAM_CLOSE, from);
    if close != -1 && close <= DollarFrom(s, from) then close else DollarFrom(s, from)
  }

  lemma FirstEnd(s: string, from: nat)
    requires from <= |s|
    ensures var to := ValueEnd(s, from);
            && from <= to <= |s| && ValueEnds(s, to) && (forall j :: from <= j < to ==> !ValueEnds(s, j))
            && (OccursAt(s, PARAM_CLOSE, to) <==>
                  FindFrom(s, PARAM_CLOSE, from) != -1 && FindFrom(s, PARAM_CLOSE, from) <= DollarFrom(s, from))
  {
  }

  lemma ParamStarts(s: string)
    ensures forall i: nat :: ParamAt(s, i).Some? ==> ParamAt(s, i).value.start == i
  {
  }

  /** The search finds the leftmost parameter. */
  lemma {:induction false} ParamSearchIs(s: string, from: nat)
    requires from <= |s|
    ensures var m := ParamSearch(s, from);
            if m.Some? then
              && from <= m.value.start && ParamAt(s, m.value.start) == m
              && forall j :: from <= j < m.value.start ==> ParamAt(s, j).None?
            else forall j: nat :: from <= j ==> ParamAt(s, j).None?
    decreases |s| - from
  {
    NoneBeyond(s);
    ParamStarts(s);
    hide ParamAt;
    if ParamAt(s, from).None? && from < |s| { ParamSearchIs(s, from + 1); }
  }

  /** An unfinished parameter is the leftmost opening tag with all that follows it. */
  lemma {:induction false} OpenParamExactly(s: string, from: nat)
    requires from <= |s|
    ensures var p := OpenParam(s, from);
            if p.Some? then
              exists i: nat, end: nat ::
                && from <= i && IsParamOpen(s, i, end, p.value.0) && p.value.1 == s[end..]
                && forall j: nat, e: nat, key :: from <= j < i ==> !IsParamOpen(s, j, e, key)
            else forall j: nat, e: nat, key :: from <= j ==> !IsParamOpen(s, j, e, key)
    decreases |s| - from
  {
    ParamOpenParts(s, from);
    var k := from + |PARAM_OPEN|;
    if OccursAt(s, PARAM_OPEN, from) && IndexOf(s, '>', k) > k {
      assert IsParamOpen(s, from, IndexOf(s, '>', k) + 1, s[k..IndexOf(s, '>', k)]);
    } else if from < |s| {
      OpenParamExactly(s, from + 1);
    }
  }

  // ----- Sentinels -----

  /** A sentinel token: a body of 1 to 80 characters other than bar and '>'. */
  ghost predicate IsToken(token: string, body: string) {
    token == "<|" + body + "|>" && 1 <= |body| <= 80 && Lacks(body, '|') && Lacks(body, '>')
  }

  lemma {:induction false} BodyIs(s: string, i: nat, n: nat)
    requires i + n < |s| && (s[i + n] == '|' || s[i + n] == '>')
    requires forall j :: i <= j < i + n ==> s[j] != '|' && s[j] != '>'
    ensures BodyLen(s, i) == n
    decreases n
  {
    if n > 0 { BodyIs(s, i + 1, n - 1); }
  }

  lemma {:induction false} BodyHas(s: string, i: nat)
    requires i <= |s|
    ensures forall j :: i <= j < i + BodyLen(s, i) ==> s[j] != '|' && s[j] != '>'
    decreases |s| - i
  {
    if i < |s| && s[i] != '|' && s[i] != '>' { BodyHas(s, i + 1); }
  }

  /** A token at the head of s, of this length. */
  lemma ControlLenExactly(s: string, n: nat)
    requires 0 < n <= |s|
    ensures ControlLen(s) == n <==> exists body :: IsToken(s[..n], body)
  {
    if ControlLen(s) == n {
      var body := s[2..n - 2];
      BodyHas(s, 2);
      assert s[..n] == s[..2] + body + s[n - 2..n];
      assert IsToken(s[..n], body);
    }
    if body :| IsToken(s[..n], body) {
      var token := s[..n];
      assert forall j :: 0 <= j < n ==> s[j] == token[j];
      assert forall j :: 2 <= j < n - 2 ==> s[j] == body[j - 2];
      assert s[..2] == token[..2] == "<|" && s[n - 2..n] == token[n - 2..] == "|>";
      BodyIs(s, 2, n - 4);
    }
  }

  lemma TokenIsControl(token: string, body: string, rest: string)
    requires IsToken(token, body)
    ensures ControlLen(token + rest) == |token| > 0
  {
    assert (token + rest)[..|token|] == token;
    ControlLenExactly(token + rest, |token|);
  }

  /** A token goes, and nothing else. */
  lemma {:induction false} TokenGoes(a: string, token: string, body: string, b: string)
    requires IsToken(token, body) && forall i :: 0 <= i < |a| ==> ControlLen((a + token + b)[i..]) == 0
    ensures StripControlTokens(a + token + b) == a + StripControlTokens(b)
    decreases |a|
  {
    hide *;
    TokenIsControl(token, body, b);
    if a == "" {
      NoFront(token, b, StripControlTokens(b));
      StripHead(token + b);
    } else {
      Behead(a, token, b, StripControlTokens(b));
      TailHasNone(a, token, b);
      TokenGoes(a[1..], token, body, b);
      StripHead(a + token + b);
    }
  }

  lemma NoFront(token: string, b: string, rest: string)
    ensures "" + token + b == token + b && (token + b)[|token|..] == b && "" + rest == rest
  {
  }

  lemma Behead(a: string, token: string, b: string, rest: string)
    requires a != ""
    ensures var s := a + token + b;
            s != "" && s[0] == a[0] && s[0..] == s && s[1..] == a[1..] + token + b && [a[0]] + (a[1..] + rest) == a + rest
  {
  }

  lemma TailHasNone(a: string, token: string, b: string)
    requires a != "" && forall i :: 0 <= i < |a| ==> ControlLen((a + token + b)[i..]) == 0
    ensures forall i :: 0 <= i < |a[1..]| ==> ControlLen((a[1..] + token + b)[i..]) == 0
    ensures ControlLen(a + token + b) == 0
  {
    hide ControlLen;
    var s := a + token + b;
    Behead(a, token, b, "");
    forall i | 0 <= i < |a[1..]| ensures ControlLen((a[1..] + token + b)[i..]) == 0 {
      assert s[1..][i..] == s[i + 1..];
    }
    assert s[0..] == s;
  }

  lemma StripHead(s: string)
    requires s != ""
    ensures StripControlTokens(s) == if ControlLen(s) > 0 then StripControlTokens(s[ControlLen(s)..])
                                     else [s[0]] + StripControlTokens(s[1..])
  {
    hide ControlLen;
  }

  /** Pieces of text, each with a token after it. */
  datatype Marked = Marked(text: string, token: string, body: string)

  function WithTokens(parts: seq<Marked>, last: string): string {
    if parts == [] then last else parts[0].text + parts[0].token + WithTokens(parts[1..], last)
  }

  function WithoutTokens(parts: seq<Marked>, last: string): string {
    if parts == [] then last else parts[0].text + WithoutTokens(parts[1..], last)
  }

  ghost predicate PlainBetween(parts: seq<Marked>, last: string) {
    Lacks(last, '|') && forall k :: 0 <= k < |parts| ==> IsToken(parts[k].token, parts[k].body) && Lacks(parts[k].text, '|')
  }

  /** From text without bars all tokens are removed, and nothing else. */
  lemma {:induction false} TokensGo(parts: seq<Marked>, last: string)
    requires PlainBetween(parts, last)
    ensures StripControlTokens(WithTokens(parts, last)) == WithoutTokens(parts, last)
    ensures Lacks(WithoutTokens(parts, last), '|')
    decreases |parts|
  {
    if parts == [] {
      StripNothing(last);
    } else {
      var (p, rest) := (parts[0], WithTokens(parts[1..], last));
      TokensGo(parts[1..], last);
      LacksBoth(p.text, WithoutTokens(parts[1..], last), '|');
      NoTokenBegins(p.text, p.token, p.body, rest);
      hide IsToken, ControlLen, StripControlTokens;
      TokenGoes(p.text, p.token, p.body, rest);
    }
  }

  lemma NoTokenBegins(a: string, token: string, body: string, b: string)
    requires Lacks(a, '|') && IsToken(token, body)
    ensures forall i :: 0 <= i < |a| ==> ControlLen((a + token + b)[i..]) == 0
  {
    var s := a + token + b;
    assert token[0] == '<';
    forall i | 0 <= i < |a| ensures ControlLen(s[i..]) == 0 {
      assert s[i..][1] == s[i + 1] == if i + 1 < |a| then a[i + 1] else token[0];
    }
  }

  /** Text with finished tokens is fed as the text without them. */
  lemma TokensNotFed(m: Machine, parts: seq<Marked>, last: string)
    requires Lacks(m.buffer, '|') && PlainBetween(parts, last)
    ensures FeedMachine(m, WithTokens(parts, last)) == FeedMachine(m, WithoutTokens(parts, last))
  {
    hide Drive, StripControlTokens, IsToken;
    var fed := WithoutTokens(parts, last);
    TokensGo(parts, last);
    LacksBoth(m.buffer, fed, '|');
    StripNothing(m.buffer + fed);
    if parts == [] {
    } else {
      var more := [parts[0].(text := m.buffer + parts[0].text)] + parts[1..];
      LacksBoth(m.buffer, parts[0].text, '|');
      assert more[1..] == parts[1..];
      assert WithTokens(more, last) == m.buffer + WithTokens(parts, last);
      assert WithoutTokens(more, last) == m.buffer + fed;
      TokensGo(more, last);
    }
  }

  // ----- A sentinel that comes in two pieces -----

  /** Every bar but one at the very beginning is followed by '>', so no token begins before it. */
  ghost predicate BarsClose(s: string) {
    forall i :: 1 <= i < |s| && s[i] == '|' ==> i + 1 < |s| && s[i + 1] == '>'
  }

  lemma BarsCloseReleased(m: Machine, kept: string, piece: string)
    requires m == START.(buffer := kept) && BarsClose(kept + piece) && Lacks(kept + piece, BULLET)
    ensures FeedMachine(m, piece) == Outcome(START, kept + piece, [])
  {
    var s := kept + piece;
    forall i | 0 <= i <= |s| ensures ControlLen(s[i..]) == 0 {
      assert i + 2 <= |s| ==> s[i..][1] == s[i + 1];
      assert i + 3 <= |s| ==> s[i..][2] == s[i + 2];
    }
    var q := RFind(s, CONTROL_OPEN);
    assert q >= 0 ==> s[q..q + 2][1] == s[q + 1] && OccursAt(s, CONTROL_CLOSE, q + 1);
    hide ControlLen, RFind, FindFrom;
    assert !HoldsBack(s);
    FedWhole(m, piece);
  }

  lemma FedWhole(m: Machine, piece: string)
    requires m == START.(buffer := m.buffer)
    requires var s := m.buffer + piece; NoControl(s) && Lacks(s, BULLET) && !HoldsBack(s)
    ensures FeedMachine(m, piece) == Outcome(START, m.buffer + piece, [])
  {
    FedKept(m, piece);
    var s := m.buffer + piece;
    HeldBackExactly(s);
    hide *;
    assert s[..|s|] == s;
  }

  /** A feed of text without bullets: all but what is held back is released. */
  lemma FedKept(m: Machine, piece: string)
    requires m == START.(buffer := m.buffer)
    requires var s := m.buffer + piece; NoControl(s) && Lacks(s, BULLET)
    ensures var s := m.buffer + piece;
            FeedMachine(m, piece) == Outcome(START.(buffer := HeldBack(s)), s[..|s| - |HeldBack(s)|], [])
  {
    hide *;
    var s := m.buffer + piece;
    NoBulletNoFunc(s);
    NoBulletKept(s);
    KeptIsHeld(m, s);
    IdleStart(m);
    FeedText(m, piece);
  }

  lemma IdleStart(m: Machine)
    requires m == START.(buffer := m.buffer)
    ensures Idle(m)
  {
  }

  lemma KeptIsHeld(m: Machine, s: string)
    requires m == START.(buffer := m.buffer) && NearBullet(s) == -1 && AfterLastBullet(s) == s
    ensures KeptMachine(m, s) == START.(buffer := HeldBack(s)) && Released(s) == s[..|s| - |HeldBack(s)|]
  {
    hide HeldBack, NearBullet, AfterLastBullet;
  }

  lemma NoBulletNoFunc(s: string)
    requires Lacks(s, BULLET)
    ensures NoFunc(s)
  {
  }

  lemma RFindIs(s: string, p: string, at: nat)
    requires OccursAt(s, p, at) && forall j :: at < j ==> !OccursAt(s, p, j)
    ensures RFind(s, p) == at
  {
  }

  /** The beginning of a token is held back from its last "<|" on, if anything is before that. */
  lemma FrontHeld(a: string, front: string, body: string, back: string)
    requires IsToken(front + back, body) && |front| >= 2 && back != "" && Lacks(a, '|') && Lacks(a + front, BULLET)
    ensures var cut := if back == ">" && EndsWith(body, "<") then |a| + |front| - 2 else |a|;
            FeedMachine(START, a + front) ==
              if cut > 0 then Outcome(START.(buffer := (a + front)[cut..]), (a + front)[..cut], [])
              else Outcome(START, a + front, [])
  {
    var s := a + front;
    var cut := if back == ">" && EndsWith(body, "<") then |a| + |front| - 2 else |a|;
    hide *;
    FrontChars(a, front, body, back, cut);
    NoCloseNoControl(s);
    FrontKept(s, cut);
    FedFromStart(s, cut);
  }

  lemma FedFromStart(s: string, cut: nat)
    requires NoControl(s) && Lacks(s, BULLET) && cut <= |s| && HeldBack(s) == if cut > 0 then s[cut..] else ""
    ensures FeedMachine(START, s) ==
              if cut > 0 then Outcome(START.(buffer := s[cut..]), s[..cut], []) else Outcome(START, s, [])
  {
    hide *;
    AtStart(s);
    FedKept(START, s);
    CutLength(s, cut);
  }

  lemma AtStart(s: string)
    ensures START.buffer == "" && "" + s == s && s[..|s|] == s && START.(buffer := "") == START
  {
  }

  lemma CutLength(s: string, cut: nat)
    requires cut <= |s|
    ensures |s| - |s[cut..]| == cut
  {
  }

  /** The last "<|" of the front is at `cut`, and no "|>" is at or after it. */
  lemma FrontChars(a: string, front: string, body: string, back: string, cut: nat)
    requires IsToken(front + back, body) && |front| >= 2 && back != "" && Lacks(a, '|')
    requires cut == if back == ">" && EndsWith(body, "<") then |a| + |front| - 2 else |a|
    ensures var s := a + front;
            && cut + 2 <= |s| && s[cut] == '<' && s[cut + 1] == '|'
            && (forall i :: 0 <= i < |s| - 1 ==> !(s[i] == '|' && s[i + 1] == '>'))
            && (forall i :: cut < i < |s| - 1 ==> !(s[i] == '<' && s[i + 1] == '|'))
  {
    var (token, s) := (front + back, a + front);
    BarsInToken(token, body);
    hide IsToken;
    assert forall i :: |a| <= i < |s| ==> s[i] == token[i - |a|];
    assert forall i :: 0 <= i < |a| ==> s[i] == a[i] != '|';
    assert |front| == |body| + 3 <==> |back| == 1;
    assert |back| == 1 ==> back[0] == token[|front|] == '>';
    assert body[|body| - 1] == token[|body| + 1];
    assert EndsWith(body, "<") <==> body[|body| - 1] == '<';
  }

  lemma FrontKept(s: string, cut: nat)
    requires cut + 2 <= |s| && s[cut] == '<' && s[cut + 1] == '|'
    requires forall i :: 0 <= i < |s| - 1 ==> !(s[i] == '|' && s[i + 1] == '>')
    requires forall i :: cut < i < |s| - 1 ==> !(s[i] == '<' && s[i + 1] == '|')
    ensures HeldBack(s) == if cut > 0 then s[cut..] else ""
  {
    TwoChars(s, CONTROL_OPEN);
    TwoChars(s, CONTROL_CLOSE);
    RFindIs(s, CONTROL_OPEN, cut);
    assert CONTROL_CLOSE[0] == '|' && CONTROL_CLOSE[1] == '>';
    forall j ensures !OccursAt(s, CONTROL_CLOSE, j) {
      assert 0 <= j < |s| - 1 ==> !(s[j] == '|' && s[j + 1] == '>');
    }
    NotFound(s, CONTROL_CLOSE, cut);
    hide RFind, OccursAt, FindFrom;
  }

  lemma NotFound(s: string, p: string, from: nat)
    requires from <= |s| && forall j :: !OccursAt(s, p, j)
    ensures FindFrom(s, p, from) == -1
  {
    hide OccursAt;
  }

  lemma TwoChars(s: string, p: string)
    requires |p| == 2
    ensures forall j :: OccursAt(s, p, j) <==> 0 <= j < |s| - 1 && s[j] == p[0] && s[j + 1] == p[1]
  {
    forall j ensures OccursAt(s, p, j) <==> 0 <= j < |s| - 1 && s[j] == p[0] && s[j + 1] == p[1] {
      if 0 <= j < |s| - 1 { assert s[j..j + 2] == [s[j], s[j + 1]] && p == [p[0], p[1]]; }
    }
  }

  lemma BarsInToken(token: string, body: string)
    requires IsToken(token, body)
    ensures |token| == |body| + 4 && token[0] == '<' && token[1] == '|' && token[|body| + 2] == '|' && token[|body| + 3] == '>'
    ensures forall i :: 2 <= i < |body| + 2 ==> token[i] == body[i - 2] && token[i] != '|' && token[i] != '>'
  {
  }

  lemma NoCloseNoControl(s: string)
    requires forall i :: 0 <= i < |s| - 1 ==> !(s[i] == '|' && s[i + 1] == '>')
    ensures NoControl(s)
  {
    forall i | 0 <= i <= |s| ensures ControlLen(s[i..]) == 0 {
      ControlEnds(s, i);
    }
  }

  lemma ControlEnds(s: string, i: nat)
    requires i <= |s|
    ensures ControlLen(s[i..]) > 0 ==> exists k :: i <= k < |s| - 1 && s[k] == '|' && s[k + 1] == '>'
  {
    var (t, n) := (s[i..], ControlLen(s[i..]));
    if n > 0 {
      assert t[n - 2..n] == CONTROL_CLOSE;
      var k := i + n - 2;
      assert s[k] == t[n - 2..n][0] && s[k + 1] == t[n - 2..n][1];
    }
  }

  /**
   * A sentinel that comes in two pieces is removed exactly if text comes
   * before it in the first piece, and the cut is after its "<|" and leaves no
   * second "<|" at the end of that piece. Otherwise all of it is shown.
   */
  lemma SentinelCutInTwo(a: string, front: string, back: string, body: string, b: string)
    requires IsToken(front + back, body) && front != "" && back != ""
    requires Lacks(a, '|') && Lacks(b, '|') && Lacks(a + front + back + b, BULLET)
    ensures var removed := a != "" && |front| >= 2 && !(back == ">" && EndsWith(body, "<"));
            FeedPieces(START, [a + front, back + b]) == Outcome(START, if removed then a + b else a + front + back + b, [])
  {
    LacksBoth(a + front + back, b, BULLET);
    LacksBoth(a + front, back, BULLET);
    LacksBoth(back, b, BULLET);
    if |front| == 1 {
      CutAfterAngle(a, front, back, body, b);
    } else {
      FrontHeld(a, front, body, back);
      if back == ">" && EndsWith(body, "<") {
        CutAtLastBar(a, front, back, body, b);
      } else if a == "" {
        CutAtHead(a, front, back, body, b);
      } else {
        CutAfterText(a, front, back, body, b);
      }
    }
  }

  lemma TwoPieces(p: string, q: string, m: Machine, t: string, u: string)
    requires FeedMachine(START, p) == Outcome(m, t, []) && FeedMachine(m, q) == Outcome(START, u, [])
    ensures FeedPieces(START, [p, q]) == Outcome(START, t + u, [])
  {
    hide FeedMachine;
    assert [p] + [q] == [p, q] && [q] + [] == [q];
    FeedFirst(START, p, [q]);
    FeedFirst(m, q, []);
    assert FeedPieces(START, []) == Outcome(START, "", []);
    assert u + "" == u;
  }

  lemma BackCloses(front: string, back: string, body: string, b: string)
    requires IsToken(front + back, body) && front != "" && Lacks(b, '|')
    ensures BarsClose(back + b)
  {
    var (token, s) := (front + back, back + b);
    BarsInToken(token, body);
    assert forall i :: 0 <= i < |back| ==> s[i] == token[|front| + i];
    assert forall i :: |back| <= i < |s| ==> s[i] == b[i - |back|];
  }

  lemma CutAfterAngle(a: string, front: string, back: string, body: string, b: string)
    requires IsToken(front + back, body) && |front| == 1
    requires Lacks(a, '|') && Lacks(b, '|') && Lacks(a + front, BULLET) && Lacks(back + b, BULLET)
    ensures FeedPieces(START, [a + front, back + b]) == Outcome(START, a + front + back + b, [])
  {
    BackCloses(front, back, body, b);
    assert front[0] == (front + back)[0] == '<';
    LacksBoth(a, front, '|');
    hide *;
    PlainTextPasses(START, a + front);
    assert "" + (back + b) == back + b && START.(buffer := "") == START;
    BarsCloseReleased(START, "", back + b);
    TwoPieces(a + front, back + b, START, a + front, back + b);
    ConcatAssoc(a + front, back, b);
  }

  lemma CutAtHead(a: string, front: string, back: string, body: string, b: string)
    requires IsToken(front + back, body) && front != "" && Lacks(b, '|') && Lacks(back + b, BULLET)
    requires FeedMachine(START, a + front) == Outcome(START, a + front, [])
    ensures FeedPieces(START, [a + front, back + b]) == Outcome(START, a + front + back + b, [])
  {
    BackCloses(front, back, body, b);
    hide *;
    assert "" + (back + b) == back + b && START.(buffer := "") == START;
    BarsCloseReleased(START, "", back + b);
    TwoPieces(a + front, back + b, START, a + front, back + b);
    ConcatAssoc(a + front, back, b);
  }

  lemma LacksInOpen(q: string)
    requires Lacks(q, BULLET)
    ensures Lacks("<|" + q, BULLET)
  {
  }

  lemma CutAtLastBar(a: string, front: string, back: string, body: string, b: string)
    requires IsToken(front + back, body) && |front| >= 2 && back == ">" && EndsWith(body, "<") && Lacks(b, '|') && Lacks(back + b, BULLET)
    requires var cut := |a| + |front| - 2;
             FeedMachine(START, a + front) == Outcome(START.(buffer := (a + front)[cut..]), (a + front)[..cut], [])
    ensures FeedPieces(START, [a + front, back + b]) == Outcome(START, a + front + back + b, [])
  {
    hide *;
    LastBarLeft(a, front, back, body, b);
    LacksInOpen(back + b);
    ConcatAssoc(a + front, back, b);
    ReleasedAtLastBar(a + front, |a| + |front| - 2, back + b);
  }

  lemma ReleasedAtLastBar(p: string, cut: nat, q: string)
    requires cut <= |p| && p[cut..] == "<|" && BarsClose("<|" + q) && Lacks("<|" + q, BULLET)
    requires FeedMachine(START, p) == Outcome(START.(buffer := p[cut..]), p[..cut], [])
    ensures FeedPieces(START, [p, q]) == Outcome(START, p + q, [])
  {
    hide *;
    BarsCloseReleased(START.(buffer := "<|"), "<|", q);
    TwoPieces(p, q, START.(buffer := "<|"), p[..cut], "<|" + q);
    Rejoin(p, cut, q);
  }

  lemma LastBarLeft(a: string, front: string, back: string, body: string, b: string)
    requires IsToken(front + back, body) && |front| >= 2 && back == ">" && EndsWith(body, "<") && Lacks(b, '|')
    ensures (a + front)[|a| + |front| - 2..] == "<|" && BarsClose("<|" + (back + b))
  {
    var (p, cut) := (a + front, |a| + |front| - 2);
    BarsInToken(front + back, body);
    hide IsToken;
    assert p[cut] == front[|front| - 2] == (front + back)[|front| - 2] == body[|body| - 1];
    assert p[cut + 1] == front[|front| - 1] == (front + back)[|front| - 1];
    assert p[cut..] == [p[cut], p[cut + 1]];
    var s := "<|" + (back + b);
    assert forall i :: 3 <= i < |s| ==> s[i] == b[i - 3];
  }

  lemma Rejoin(p: string, cut: nat, q: string)
    requires cut <= |p|
    ensures p[..cut] + (p[cut..] + q) == p + q
  {
  }

  lemma CutAfterText(a: string, front: string, back: string, body: string, b: string)
    requires IsToken(front + back, body) && a != "" && Lacks(b, '|') && Lacks(back + b, BULLET)
    requires FeedMachine(START, a + front) == Outcome(START.(buffer := (a + front)[|a|..]), (a + front)[..|a|], [])
    ensures FeedPieces(START, [a + front, back + b]) == Outcome(START, a + b, [])
  {
    var token := front + back;
    assert (a + front)[|a|..] == front && (a + front)[..|a|] == a;
    assert forall i :: 0 <= i < |b| ==> b[i] == (back + b)[|back| + i];
    assert Lacks(b, BULLET);
    assert "" + token + b == token + b && "" + StripControlTokens(b) == StripControlTokens(b);
    StripNothing(b);
    hide *;
    TokenGoes("", token, body, b);
    ConcatAssoc(front, back, b);
    FedAsRest(front, back + b, b);
    PlainTextPasses(START, b);
    TwoPieces(a + front, back + b, START.(buffer := front), a, b);
  }

  lemma FedAsRest(kept: string, piece: string, b: string)
    requires StripControlTokens(kept + piece) == b == StripControlTokens(b)
    ensures FeedMachine(START.(buffer := kept), piece) == FeedMachine(START, b)
  {
    hide Drive, StripControlTokens;
    assert "" + b == b;
  }
}
