/**
 * What the text tool-call parser promises: a well-formed call is recovered
 * from every chunking but those that leave white space between tags alone.
 */
module HeuristicCalls {
  import opened Text
  import opened HeuristicParser
  import opened HeuristicText

  /** A parameter, with the white space that comes before its tag. */
  datatype Param = Param(gap: string, key: string, value: string)

  datatype Call = Call(space: string, name: string, params: seq<Param>)

  function Header(call: Call): string {
    [BULLET] + call.space + FUNC_OPEN + call.name + ">"
  }

  function TagText(p: Param): string {
    PARAM_OPEN + p.key + ">" + p.value + PARAM_CLOSE
  }

  function ParamText(p: Param): string {
    p.gap + TagText(p)
  }

  function ParamsText(ps: seq<Param>): string {
    if ps == [] then "" else ParamText(ps[0]) + ParamsText(ps[1..])
  }

  /** The call as a model writes it, with white space between the tags or without. */
  function CallText(call: Call): string {
    Header(call) + ParamsText(call.params)
  }

  function ParamMap(ps: seq<Param>, base: map<string, string>): map<string, string> {
    if ps == [] then base
    else ParamMap(ps[1..], base[Strip(ps[0].key) := Strip(ps[0].value)])
  }

  /** What the parameters give a key: the value of the last one with that key, or else what it had before. */
  lemma {:induction false} ParamMapAt(ps: seq<Param>, base: map<string, string>, key: string)
    ensures key in ParamMap(ps, base) <==> key in base || exists i :: 0 <= i < |ps| && Strip(ps[i].key) == key
    ensures forall i :: 0 <= i < |ps| && Strip(ps[i].key) == key && (forall j :: i < j < |ps| ==> Strip(ps[j].key) != key) ==>
              ParamMap(ps, base)[key] == Strip(ps[i].value)
    ensures key in base && (forall i :: 0 <= i < |ps| ==> Strip(ps[i].key) != key) ==> ParamMap(ps, base)[key] == base[key]
  {
    hide Strip;
    if ps != [] {
      var next := base[Strip(ps[0].key) := Strip(ps[0].value)];
      ParamMapAt(ps[1..], next, key);
      assert forall i :: 1 <= i < |ps| ==> ps[i] == ps[1..][i - 1];
    }
  }

  lemma OneParamText(p: Param)
    ensures ParamsText([p]) == p.gap + ("<parameter=" + p.key + ">" + p.value + "</parameter>")
  {
    assert ParamsText([p][1..]) == "";
  }

  /** A call with one parameter, as it is written. */
  lemma AsWritten(space: string, name: string, p: Param)
    ensures CallText(Call(space, name, [p]))
         == ("\U{25CF}" + space + "<function=" + name + ">") + (p.gap + ("<parameter=" + p.key + ">" + p.value + "</parameter>"))
  {
    OneParamText(p);
    hide ParamsText;
    assert Header(Call(space, name, [p])) == "\U{25CF}" + space + "<function=" + name + ">";
    hide Header;
  }

  function GapsOf(ps: seq<Param>): string {
    if ps == [] then "" else ps[0].gap + GapsOf(ps[1..])
  }

  /** A tag with a key, and a value that ends at the closing tag. */
  ghost predicate HasTag(p: Param) {
    p.key != "" && Lacks(p.key, '>') && forall i :: !OccursAt(p.value, PARAM_CLOSE, i)
  }

  /** A key that ends like a closing tag would close its parameter with its own '>'. */
  ghost predicate WellFormedParam(p: Param) {
    AllSpace(p.gap) && HasTag(p) && !EndsWith(p.key, PARAM_CLOSE[..|PARAM_CLOSE| - 1]) && Lacks(TagText(p), BULLET)
  }

  /** No bullet, but for the first; a header that is not too long; and no finished sentinel, which would be stripped. */
  ghost predicate WellFormed(call: Call) {
    && AllSpace(call.space)
    && call.name != "" && Lacks(call.name, '>') && Lacks(call.name, BULLET)
    && |Header(call)| <= 101
    && (forall k :: 0 <= k < |call.params| ==> WellFormedParam(call.params[k]))
    && NoControl(CallText(call))
  }

  // ----- Matching the header -----

  /** A prefix of a call that ends before the '>' of its header matches nothing yet. */
  lemma NoFuncYet(s: string, call: Call, from: nat)
    requires WellFormed(call) && s <= Header(call) && |s| < |Header(call)| && from <= |s|
    ensures FuncSearch(s, from).None?
    decreases |s| - from
  {
    assert Lacks(s, '>') by {
      forall i | 0 <= i < |s| ensures s[i] != '>' { HeaderChars(call, i); }
    }
    if from < |s| { NoFuncYet(s, call, from + 1); }
  }

  lemma HeaderChars(call: Call, i: nat)
    requires WellFormed(call) && i < |Header(call)|
    ensures i < |Header(call)| - 1 ==> Header(call)[i] != '>'
    ensures i > 0 ==> Header(call)[i] != BULLET
  {
  }

  /** Once the header is complete it matches, with exactly the written name. */
  lemma FuncFound(call: Call, rest: string)
    requires WellFormed(call)
    ensures FuncSearch(Header(call) + rest, 0) == FuncAt(Header(call) + rest, 0) == Some(FuncMatch(call.name, |Header(call)|))
  {
    var (a, b) := (1 + |call.space|, 1 + |call.space| + |FUNC_OPEN|);
    HeaderSlices(call, rest);
    hide Header, FuncSearch, FuncAt;
    HeaderFound(Header(call) + rest, call, a, b, b + |call.name|);
  }

  lemma HeaderFound(s: string, call: Call, a: nat, b: nat, e: nat)
    requires AllSpace(call.space) && Lacks(call.name, '>') && call.name != "" && 1 <= a <= b < e < |s|
    requires s[0] == BULLET && s[1..a] == call.space && s[a..b] == FUNC_OPEN && s[b..e] == call.name && s[e] == '>'
    ensures FuncSearch(s, 0) == FuncAt(s, 0) == Some(FuncMatch(call.name, e + 1))
  {
    SpacesAre(s, call.space, 1, a);
    NameIs(s, call.name, b, e);
    OpenIs(s, a, b);
    hide *;
    SkipExactly(s, 1, a);
    IndexExactly(s, '>', b, e);
    FuncThere(s, 0, a, e);
    FoundFirst(s);
  }

  lemma SpacesAre(s: string, space: string, i: nat, j: nat)
    requires i <= j <= |s| && s[i..j] == space && AllSpace(space)
    ensures forall k :: i <= k < j ==> IsSpace(s[k])
  {
    hide IsSpace;
    assert forall k :: i <= k < j ==> s[k] == space[k - i];
  }

  lemma NameIs(s: string, name: string, i: nat, j: nat)
    requires i <= j <= |s| && s[i..j] == name && Lacks(name, '>')
    ensures forall k :: i <= k < j ==> s[k] != '>'
  {
    assert forall k :: i <= k < j ==> s[k] == name[k - i];
  }

  lemma OpenIs(s: string, i: nat, j: nat)
    requires i <= j <= |s| && s[i..j] == FUNC_OPEN
    ensures i < |s| && s[i] == FUNC_OPEN[0] && !IsSpace(s[i])
  {
    assert s[i] == s[i..j][0];
  }

  lemma FoundFirst(s: string)
    requires FuncAt(s, 0).Some?
    ensures FuncSearch(s, 0) == FuncAt(s, 0)
  {
  }

  lemma HeaderSlices(call: Call, rest: string)
    ensures var s := Header(call) + rest;
            var (a, b) := (1 + |call.space|, 1 + |call.space| + |FUNC_OPEN|);
            var e := b + |call.name|;
            && |Header(call)| == e + 1 <= |s| && s[0] == BULLET && s[1..a] == call.space && s[a..b] == FUNC_OPEN
            && s[b..e] == call.name && s[e] == '>'
  {
  }

  // ----- Matching the parameters -----

  /** A complete parameter, after its white space, is taken exactly as written. */
  lemma ClosedParamFound(p: Param, rest: string)
    requires WellFormedParam(p)
    ensures ClosedParam(ParamText(p) + rest) == Some(ParamMatch(|p.gap|, p.key, p.value, |ParamText(p)|))
  {
    var s := ParamText(p) + rest;
    SpaceThenTag(p, rest);
    ParamAtTag(p, rest);
    hide ParamText, TagText, WellFormedParam, ParamAt, Find;
    SearchSkips(s, 0, |p.gap|);
  }

  /** Before the tag is only white space, and the tag holds its closing tag. */
  lemma SpaceThenTag(p: Param, rest: string)
    requires WellFormedParam(p)
    ensures var s := ParamText(p) + rest;
            && (forall i :: 0 <= i < |p.gap| ==> s[i] != '<')
            && s[|p.gap|..|ParamText(p)|] == TagText(p) && Find(TagText(p), PARAM_CLOSE) != -1
  {
    var s := ParamText(p) + rest;
    assert forall i :: 0 <= i < |p.gap| ==> s[i] == p.gap[i];
    CloseAtEnd(PARAM_OPEN + p.key + ">" + p.value);
  }

  lemma CloseAtEnd(front: string)
    ensures Find(front + PARAM_CLOSE, PARAM_CLOSE) != -1
  {
    assert OccursAt(front + PARAM_CLOSE, PARAM_CLOSE, |front|);
  }

  /** The search for a parameter passes over what is no '<'. */
  lemma {:induction false} SearchSkips(s: string, from: nat, stop: nat)
    requires from <= stop <= |s| && forall i :: from <= i < stop ==> s[i] != '<'
    ensures ParamSearch(s, from) == ParamSearch(s, stop)
    decreases stop - from
  {
    if from < stop {
      assert from + |PARAM_OPEN| <= |s| ==> s[from..from + |PARAM_OPEN|][0] == s[from];
      SearchSkips(s, from + 1, stop);
    }
  }

  lemma ParamAtTag(p: Param, rest: string)
    requires HasTag(p)
    ensures ParamAt(ParamText(p) + rest, |p.gap|) == Some(ParamMatch(|p.gap|, p.key, p.value, |ParamText(p)|))
  {
    hide ParamText, TagText, IndexOf, FindFrom, HasTag, OccursAt, ParamAt;
    ParamPieces(p, rest);
    var (s, e) := (ParamText(p) + rest, |p.gap| + |PARAM_OPEN| + |p.key|);
    ParamAtExactly(s, |p.gap|, e, e + 1 + |p.value|);
  }

  lemma ParamAtExactly(s: string, i: nat, e: nat, close: nat)
    requires OccursAt(s, PARAM_OPEN, i) && i + |PARAM_OPEN| < e < close <= |s| - |PARAM_CLOSE|
    requires IndexOf(s, '>', i + |PARAM_OPEN|) == e && FindFrom(s, PARAM_CLOSE, e + 1) == close
    ensures ParamAt(s, i) == Some(ParamMatch(i, s[i + |PARAM_OPEN|..e], s[e + 1..close], close + |PARAM_CLOSE|))
  {
    hide IndexOf, FindFrom, OccursAt;
  }

  /** Where the pieces of a parameter begin and end. */
  lemma ParamPieces(p: Param, rest: string)
    requires HasTag(p)
    ensures var s := ParamText(p) + rest;
            var k := |p.gap| + |PARAM_OPEN|;
            var e := k + |p.key|;
            var close := e + 1 + |p.value|;
            && |p.key| > 0 && close + |PARAM_CLOSE| == |ParamText(p)|
            && OccursAt(s, PARAM_OPEN, |p.gap|)
            && IndexOf(s, '>', k) == e && s[k..e] == p.key
            && FindFrom(s, PARAM_CLOSE, e + 1) == close && s[e + 1..close] == p.value
  {
    var s := ParamText(p) + rest;
    var k := |p.gap| + |PARAM_OPEN|;
    var e := k + |p.key|;
    var close := e + 1 + |p.value|;
    ParamSlices(p, rest);
    assert OccursAt(s, PARAM_CLOSE, close);
    assert |p.key| > 0 && forall j :: 0 <= j < |p.key| ==> p.key[j] != '>';
    hide *;
    KeyChars(s, k, e, p.key);
    IndexExactly(s, '>', k, e);
    FirstClose(p, rest, e + 1);
    FindExactly(s, PARAM_CLOSE, e + 1, close);
  }

  lemma FirstClose(p: Param, rest: string, from: nat)
    requires HasTag(p) && from == |p.gap| + |PARAM_OPEN| + |p.key| + 1
    ensures forall j :: from <= j < from + |p.value| ==> !OccursAt(ParamText(p) + rest, PARAM_CLOSE, j)
  {
    hide *;
    forall j | from <= j < from + |p.value| ensures !OccursAt(ParamText(p) + rest, PARAM_CLOSE, j) {
      NoCloseInValue(p, rest, j - from);
    }
  }

  lemma KeyChars(s: string, k: nat, e: nat, key: string)
    requires k <= e <= |s| && s[k..e] == key
    ensures forall j :: k <= j < e ==> s[j] == key[j - k]
  {
    forall j | k <= j < e ensures s[j] == key[j - k] { assert s[k..e][j - k] == s[j]; }
  }

  lemma ParamSlices(p: Param, rest: string)
    ensures var s := ParamText(p) + rest;
            var k := |p.gap| + |PARAM_OPEN|;
            var e := k + |p.key|;
            var close := e + 1 + |p.value|;
            && |s| >= close + |PARAM_CLOSE| && close + |PARAM_CLOSE| == |ParamText(p)|
            && s[..|p.gap|] == p.gap && s[|p.gap|..k] == PARAM_OPEN && s[k..e] == p.key && s[e] == '>'
            && s[e + 1..close] == p.value && s[close..close + |PARAM_CLOSE|] == PARAM_CLOSE
  {
  }

  lemma ShiftOccurs(a: string, b: string, p: string, j: int)
    requires 0 <= j
    ensures OccursAt(a + b, p, |a| + j) <==> OccursAt(b, p, j)
  {
    if j + |p| <= |b| { assert (a + b)[|a| + j..|a| + j + |p|] == b[j..j + |p|]; }
  }

  /** A closing tag has one '<', at its head, so none can start in the value and end after it. */
  lemma NoCloseBefore(value: string, rest: string, j: nat)
    requires (forall i :: !OccursAt(value, PARAM_CLOSE, i)) && j < |value|
    ensures !OccursAt(value + PARAM_CLOSE + rest, PARAM_CLOSE, j)
  {
    var (s, n) := (value + PARAM_CLOSE + rest, |PARAM_CLOSE|);
    assert !OccursAt(value, PARAM_CLOSE, j);
    if j + n <= |value| {
      assert s[j..j + n] == value[j..j + n];
    } else {
      assert s[|value|] == '<';
      assert j + n <= |s| ==> s[j..j + n][|value| - j] == s[|value|];
      assert PARAM_CLOSE[|value| - j] != '<';
    }
  }

  /** A parameter up to and including the '>' after its key. */
  function HeadText(p: Param): string {
    p.gap + PARAM_OPEN + p.key + ">"
  }

  lemma HeadAndValue(p: Param, rest: string)
    ensures ParamText(p) + rest == HeadText(p) + (p.value + PARAM_CLOSE + rest)
    ensures |HeadText(p)| == |p.gap| + |PARAM_OPEN| + |p.key| + 1 && |ParamText(p)| == |HeadText(p)| + |p.value| + |PARAM_CLOSE|
  {
  }

  lemma NoCloseInValue(p: Param, rest: string, j: nat)
    requires HasTag(p) && j < |p.value|
    ensures !OccursAt(ParamText(p) + rest, PARAM_CLOSE, |p.gap| + |PARAM_OPEN| + |p.key| + 1 + j)
  {
    HeadAndValue(p, rest);
    NoCloseBefore(p.value, rest, j);
    hide ParamText, HeadText, OccursAt;
    ShiftOccurs(HeadText(p), p.value + PARAM_CLOSE + rest, PARAM_CLOSE, j);
  }

  /** A proper prefix of a parameter holds no complete one; it ends the call exactly when it is white space alone. */
  lemma CutParam(p: Param, s: string)
    requires WellFormedParam(p) && s <= ParamText(p) && |s| < |ParamText(p)|
    ensures ClosedParam(s).None? && (CallIsOver(s) <==> 0 < |s| <= |p.gap|)
    ensures BULLET !in s
  {
    forall i ensures !OccursAt(s, PARAM_CLOSE, i) { NoCloseInCut(p, s, i); }
    NoClosedWithoutClose(s);
    var t := ParamText(p);
    forall i | 0 <= i < |s| ensures s[i] != BULLET { ParamLacks(p, BULLET, i); }
    assert forall i :: 0 <= i < |s| && i < |p.gap| ==> s[i] == t[i] == p.gap[i];
    if |s| > |p.gap| {
      assert s[|p.gap|] == t[|p.gap|] == '<';
      StripFindsHead(s, |p.gap|);
    } else if s != "" {
      StripAllSpace(s);
      assert forall i :: !OccursAt(s, PARAM_OPEN, i) by {
        assert forall i :: 0 <= i < |s| ==> s[i] != '<';
        assert forall i :: OccursAt(s, PARAM_OPEN, i) ==> s[i..i + |PARAM_OPEN|][0] == s[i];
      }
    }
  }

  lemma ParamLacks(p: Param, c: char, i: nat)
    requires AllSpace(p.gap) && Lacks(TagText(p), c) && !IsSpace(c) && i < |ParamText(p)|
    ensures ParamText(p)[i] != c
  {
    assert ParamText(p)[i] == if i < |p.gap| then p.gap[i] else TagText(p)[i - |p.gap|];
  }

  lemma OccursInSlice(s: string, from: nat, to: nat, p: string, i: int)
    requires from <= to <= |s|
    ensures OccursAt(s[from..to], p, i) ==> OccursAt(s, p, from + i)
  {
    var g := s[from..to];
    if 0 <= i && i + |p| <= |g| {
      var u, v := g[i..i + |p|], s[from + i..from + i + |p|];
      assert forall j :: 0 <= j < |p| ==> u[j] == g[i + j] == v[j];
      assert u == v;
    }
  }

  lemma NoClosedWithoutClose(s: string)
    requires forall i :: !OccursAt(s, PARAM_CLOSE, i)
    ensures ClosedParam(s).None?
  {
    var m := ParamSearch(s, 0);
    if m.Some? {
      forall i
        ensures !OccursAt(s[m.value.start..m.value.end], PARAM_CLOSE, i)
      {
        OccursInSlice(s, m.value.start, m.value.end, PARAM_CLOSE, i);
      }
    }
  }

  /** A closing tag ends with its only '>': in a cut that could be the end of the key, or lie in the value. */
  lemma NoCloseInCut(p: Param, s: string, i: int)
    requires WellFormedParam(p) && s <= ParamText(p) && |s| < |ParamText(p)|
    ensures !OccursAt(s, PARAM_CLOSE, i)
  {
    var (h, back) := (HeadText(p), p.value + PARAM_CLOSE + "");
    HeadAndValue(p, "");
    assert ParamText(p) + "" == ParamText(p);
    assert h[|h| - 1] == '>';
    hide ParamText, HeadText;
    if OccursAt(s, PARAM_CLOSE, i) {
      InPrefix(s, h + back, PARAM_CLOSE, i);
      if i >= |h| {
        ShiftOccurs(h, back, PARAM_CLOSE, i - |h|);
        NoCloseBefore(p.value, "", i - |h|);
      } else if i + |PARAM_CLOSE| <= |h| {
        WithinPrefix(h, h + back, PARAM_CLOSE, i);
        CloseEndsKey(p, i);
      } else {
        CloseHasOneEnd(h + back, i, |h| - 1);
      }
    }
  }

  lemma InPrefix(s: string, t: string, p: string, i: int)
    requires s <= t && OccursAt(s, p, i)
    ensures OccursAt(t, p, i)
  {
    assert s[i..i + |p|] == t[i..i + |p|];
  }

  lemma WithinPrefix(s: string, t: string, p: string, i: int)
    requires s <= t && OccursAt(t, p, i) && i + |p| <= |s|
    ensures OccursAt(s, p, i)
  {
    assert s[i..i + |p|] == t[i..i + |p|];
  }

  lemma CloseHasOneEnd(t: string, i: nat, e: nat)
    requires OccursAt(t, PARAM_CLOSE, i) && i <= e < i + |PARAM_CLOSE| - 1
    ensures t[e] != '>'
  {
    assert t[e] == t[i..i + |PARAM_CLOSE|][e - i] == PARAM_CLOSE[e - i];
  }

  lemma HeadChars(p: Param, j: nat)
    requires j < |HeadText(p)|
    ensures var k := |p.gap| + |PARAM_OPEN|;
            HeadText(p)[j] == if j < |p.gap| then p.gap[j] else if j < k then PARAM_OPEN[j - |p.gap|]
                              else if j < k + |p.key| then p.key[j - k] else '>'
  {
  }

  lemma OpenChars()
    ensures forall j :: 0 <= j < |PARAM_OPEN| ==> PARAM_OPEN[j] != '>' && (PARAM_OPEN[j] == '<' ==> j == 0)
    ensures PARAM_OPEN[1] != '/'
  {
  }

  lemma HeadEnds(p: Param, j: nat)
    requires AllSpace(p.gap) && Lacks(p.key, '>') && j < |HeadText(p)|
    ensures HeadText(p)[j] == '>' ==> j == |HeadText(p)| - 1
  {
    HeadChars(p, j);
    OpenChars();
  }

  lemma HeadOpens(p: Param, j: nat)
    requires AllSpace(p.gap) && j + 1 < |HeadText(p)|
    ensures HeadText(p)[j] == '<' && HeadText(p)[j + 1] == '/' ==> j >= |p.gap| + |PARAM_OPEN|
  {
    HeadChars(p, j);
    HeadChars(p, j + 1);
    OpenChars();
  }

  /** A closing tag within the head ends where the head does, and the key ends with the rest of it. */
  lemma CloseEndsKey(p: Param, i: nat)
    requires AllSpace(p.gap) && Lacks(p.key, '>') && OccursAt(HeadText(p), PARAM_CLOSE, i)
    ensures EndsWith(p.key, PARAM_CLOSE[..|PARAM_CLOSE| - 1])
  {
    var (h, n, k) := (HeadText(p), |PARAM_CLOSE|, |p.gap| + |PARAM_OPEN|);
    hide HeadText, OccursAt;
    HeadLength(p);
    CharIn(h, PARAM_CLOSE, i, 0);
    CharIn(h, PARAM_CLOSE, i, 1);
    CharIn(h, PARAM_CLOSE, i, n - 1);
    HeadOpens(p, i);
    HeadEnds(p, i + n - 1);
    forall j | 0 <= j < n - 1
      ensures p.key[i - k + j] == PARAM_CLOSE[j]
    {
      HeadChars(p, i + j);
      CharIn(h, PARAM_CLOSE, i, j);
    }
    assert p.key[i - k..] == PARAM_CLOSE[..n - 1];
  }

  lemma HeadLength(p: Param)
    ensures |HeadText(p)| == |p.gap| + |PARAM_OPEN| + |p.key| + 1
  {
  }

  lemma CharIn(s: string, p: string, i: nat, j: nat)
    requires OccursAt(s, p, i) && j < |p|
    ensures i + |p| <= |s| && s[i + j] == p[j]
  {
    assert s[i + j] == s[i..i + |p|][j];
  }

  lemma StripFindsHead(s: string, i: nat)
    requires i < |s| && s[i] == '<' && forall j :: 0 <= j < i ==> IsSpace(s[j])
    ensures "<" <= Strip(s)
  {
    SkipExactly(s, 0, i);
    RStripKeepsHead(s[i..]);
  }

  lemma StripAllSpace(s: string)
    requires AllSpace(s)
    ensures Strip(s) == ""
  {
    assert SkipSpaces(s, 0) == |s|;
  }

  lemma {:induction false} RStripKeepsHead(s: string)
    requires s != "" && s[0] == '<'
    ensures "<" <= RStrip(s)
  {
    if IsSpace(s[|s| - 1]) {
      assert |s| > 1;
      RStripKeepsHead(s[..|s| - 1]);
    }
  }

  /** What is left of the parameters after n complete ones and the cut text `rest`. */
  ghost predicate CutAt(ps: seq<Param>, n: nat, rest: string) {
    n <= |ps| && if n == |ps| then rest == "" else rest <= ParamText(ps[n]) && |rest| < |ParamText(ps[n])|
  }

  /** Nothing is left but some white space before the next parameter. */
  predicate OnlyGap(ps: seq<Param>, n: nat, rest: string) {
    n < |ps| && 0 < |rest| <= |ps[n].gap|
  }

  lemma CutWaits(ps: seq<Param>, n: nat, rest: string)
    requires CutAt(ps, n, rest) && forall k :: 0 <= k < |ps| ==> WellFormedParam(ps[k])
    ensures ClosedParam(rest).None? && (CallIsOver(rest) <==> OnlyGap(ps, n, rest)) && BULLET !in rest
  {
    if n < |ps| {
      CutParam(ps[n], rest);
    } else {
      assert ClosedParam("").None? && !CallIsOver("");
    }
  }

  /** Any prefix of the parameters is some complete ones, whose white space is released, and a cut one. */
  lemma {:induction false} TakeComplete(ps: seq<Param>, s: string, m: Machine) returns (n: nat, rest: string)
    requires forall k :: 0 <= k < |ps| ==> WellFormedParam(ps[k])
    requires s <= ParamsText(ps) && m.buffer == s
    ensures CutAt(ps, n, rest) && s == ParamsText(ps[..n]) + rest
    ensures TakeParams(m) == Outcome(m.(buffer := rest, params := ParamMap(ps[..n], m.params)), GapsOf(ps[..n]), [])
  {
    hide TakeParams, CallIsOver, WellFormedParam, ParamText, Strip;
    if ps == [] {
      n, rest := 0, "";
      CutWaits(ps, 0, "");
      TakeNone(m);
    } else if |s| < |ParamText(ps[0])| {
      n, rest := 0, s;
      assert s == ParamsText(ps)[..|s|] == ParamText(ps[0])[..|s|];
      CutWaits(ps, 0, s);
      TakeNone(m);
    } else {
      var t := ParamText(ps[0]);
      var tail := s[|t|..];
      assert s == ParamsText(ps)[..|s|];
      assert s == t + tail && tail <= ParamsText(ps[1..]);
      var next := m.(buffer := tail, params := m.params[Strip(ps[0].key) := Strip(ps[0].value)]);
      TakeOne(ps[0], tail, m);
      var n';
      n', rest := TakeComplete(ps[1..], tail, next);
      n := n' + 1;
      assert ps[..n][1..] == ps[1..][..n'] && ps[..n][0] == ps[0];
      assert ParamsText(ps[..n]) == t + ParamsText(ps[1..][..n']);
      assert ParamMap(ps[..n], m.params) == ParamMap(ps[1..][..n'], next.params);
      assert GapsOf(ps[..n]) == ps[0].gap + GapsOf(ps[1..][..n']);
      hide ParamMap, ParamsText, GapsOf;
    }
  }

  lemma TakeNone(m: Machine)
    requires ClosedParam(m.buffer).None?
    ensures TakeParams(m) == Outcome(m, "", [])
  {
  }

  lemma TakeOne(p: Param, tail: string, m: Machine)
    requires WellFormedParam(p) && m.buffer == ParamText(p) + tail
    ensures TakeParams(m)
         == Before(p.gap, [], TakeParams(m.(buffer := tail, params := m.params[Strip(p.key) := Strip(p.value)])))
  {
    ClosedParamFound(p, tail);
    assert m.buffer[..|p.gap|] == p.gap;
    hide ClosedParam, ParamText, Strip;
    assert m.buffer[|ParamText(p)|..] == tail;
  }

  // ----- The parser on prefixes of a call -----

  /**
   * Where the machine stands after it has been fed the prefix s of the call,
   * and the text it has released by then: the white space before the complete
   * parameters.
   */
  ghost predicate After(call: Call, s: string, m: Machine, text: string) {
    if s == "" then m.state == TEXT && m.buffer == "" && text == ""
    else if |s| < |Header(call)| then m.state == MATCHING_FUNCTION && m.buffer == s && text == ""
    else
      && m.state == PARSING_PARAMETERS && m.name == Strip(call.name)
      && exists n: nat :: CompletedTo(call, s, m, n, text)
  }

  ghost predicate CompletedTo(call: Call, s: string, m: Machine, n: nat, text: string) {
    && CutAt(call.params, n, m.buffer)
    && s == Header(call) + ParamsText(call.params[..n]) + m.buffer
    && m.params == ParamMap(call.params[..n], map[]) && text == GapsOf(call.params[..n])
  }

  /** The fed prefix ends with a part of the white space before parameter n. */
  predicate EndsInGapOf(call: Call, s: string, n: nat) {
    && n < |call.params|
    && var done := |Header(call)| + |ParamsText(call.params[..n])|;
       done < |s| <= done + |call.params[n].gap|
  }

  /** The fed prefix leaves only white space after its last complete tag. */
  predicate EndsInGap(call: Call, s: string) {
    exists n: nat :: n < |call.params| && EndsInGapOf(call, s, n)
  }

  /** That is so exactly when white space is all that is left in the buffer. */
  lemma EndsInGapExactly(call: Call, s: string, n: nat, rest: string)
    requires CutAt(call.params, n, rest) && s == Header(call) + ParamsText(call.params[..n]) + rest
    ensures EndsInGap(call, s) <==> OnlyGap(call.params, n, rest)
    ensures OnlyGap(call.params, n, rest) ==> EndsInGapOf(call, s, n)
  {
    hide Header;
    var ps := call.params;
    assert |s| == |Header(call)| + |ParamsText(ps[..n])| + |rest|;
    assert n < |ps| ==> (EndsInGapOf(call, s, n) <==> OnlyGap(ps, n, rest));
    forall n': nat | n' < |ps| && n' != n
      ensures !EndsInGapOf(call, s, n')
    {
      if n' < n { LaterStart(ps, n', n); } else { LaterStart(ps, n, n'); }
    }
  }

  lemma {:induction false} LaterStart(ps: seq<Param>, a: nat, b: nat)
    requires a < b <= |ps|
    ensures |ParamsText(ps[..a])| + |ParamText(ps[a])| <= |ParamsText(ps[..b])|
    ensures |ps[a].gap| < |ParamText(ps[a])|
  {
    assert ps[..b] == ps[..a] + ps[a..b];
    ParamsTextConcat(ps[..a], ps[a..b]);
    assert ParamsText(ps[a..b]) == ParamText(ps[a]) + ParamsText(ps[a..b][1..]);
  }

  lemma ParamsTextHead(ps: seq<Param>)
    requires ps != []
    ensures ParamsText(ps) == ParamText(ps[0]) + ParamsText(ps[1..])
  {
  }

  lemma {:induction false} ParamsTextConcat(a: seq<Param>, b: seq<Param>)
    ensures ParamsText(a + b) == ParamsText(a) + ParamsText(b)
  {
    if a == [] {
      assert a + b == b;
    } else {
      ParamsTextConcat(a[1..], b);
      assert (a + b)[1..] == a[1..] + b && (a + b)[0] == a[0];
      hide *;
      ParamsTextHead(a);
      ParamsTextHead(a + b);
      ConcatAssoc(ParamText(a[0]), ParamsText(a[1..]), ParamsText(b));
    }
  }

  lemma ParamMapHead(ps: seq<Param>, base: map<string, string>)
    requires ps != []
    ensures ParamMap(ps, base) == ParamMap(ps[1..], base[Strip(ps[0].key) := Strip(ps[0].value)])
  {
  }

  lemma {:induction false} ParamMapConcat(a: seq<Param>, b: seq<Param>, base: map<string, string>)
    ensures ParamMap(a + b, base) == ParamMap(b, ParamMap(a, base))
  {
    if a == [] {
      assert a + b == b;
    } else {
      var next := base[Strip(a[0].key) := Strip(a[0].value)];
      assert (a + b)[1..] == a[1..] + b && (a + b)[0] == a[0];
      ParamMapHead(a, base);
      ParamMapHead(a + b, base);
      hide ParamMap, Strip;
      ParamMapConcat(a[1..], b, next);
    }
  }

  lemma {:induction false} GapsConcat(a: seq<Param>, b: seq<Param>)
    ensures GapsOf(a + b) == GapsOf(a) + GapsOf(b)
  {
    if a == [] {
      assert a + b == b;
    } else {
      GapsConcat(a[1..], b);
      assert (a + b)[1..] == a[1..] + b && (a + b)[0] == a[0];
      assert GapsOf(a + b) == a[0].gap + (GapsOf(a[1..]) + GapsOf(b));
    }
  }

  lemma {:induction false} ParamsLack(ps: seq<Param>, c: char)
    requires !IsSpace(c) && forall k :: 0 <= k < |ps| ==> AllSpace(ps[k].gap) && Lacks(TagText(ps[k]), c)
    ensures Lacks(ParamsText(ps), c)
  {
    if ps == [] {
    } else {
      ParamsLack(ps[1..], c);
      forall i | 0 <= i < |ParamText(ps[0])| ensures ParamText(ps[0])[i] != c { ParamLacks(ps[0], c, i); }
    }
  }

  /**
   * Driving the machine that has found the header, with the parameters so far
   * behind it, on a longer prefix of the call: either it waits for more, or
   * white space alone ends the call too soon.
   */
  lemma DriveParams(call: Call, done: nat, m: Machine, s: string)
    requires WellFormed(call) && done <= |call.params|
    requires m.state == PARSING_PARAMETERS && m.name == Strip(call.name)
    requires m.params == ParamMap(call.params[..done], map[])
    requires s == Header(call) + ParamsText(call.params[..done]) + m.buffer && s <= CallText(call)
    ensures FedTo(call, s, Drive(m), GapsOf(call.params[..done]))
  {
    hide Drive, TakeParams, ParamText, Strip, ParamMap, ParamsText, GapsOf, OnlyGap, EndsInGap;
    var n, rest, o := TakeMore(call, done, m, s);
    DriveTaken(call, s, m, n, rest, o.text);
    EndsInGapExactly(call, s, n, rest);
    var gaps := GapsOf(call.params[..done]);
    if OnlyGap(call.params, n, rest) {
      assert gaps + (o.text + rest) == gaps + o.text + rest;
      assert CutShortAt(call, s, Drive(m), gaps, n);
    } else {
      assert CompletedTo(call, s, o.m, n, gaps + o.text);
    }
  }

  /** Taking off the complete parameters, some of which may have been taken off before. */
  lemma TakeMore(call: Call, done: nat, m: Machine, s: string) returns (n: nat, rest: string, o: Outcome)
    requires WellFormed(call) && done <= |call.params|
    requires m.state == PARSING_PARAMETERS && m.params == ParamMap(call.params[..done], map[])
    requires s == Header(call) + ParamsText(call.params[..done]) + m.buffer && s <= CallText(call)
    ensures CutAt(call.params, n, rest) && s == Header(call) + ParamsText(call.params[..n]) + rest
    ensures o == TakeParams(m) && o.tools == [] && GapsOf(call.params[..done]) + o.text == GapsOf(call.params[..n])
    ensures o.m == m.(buffer := rest, params := ParamMap(call.params[..n], map[]))
  {
    hide TakeParams, ParamText, Strip, ParamMap, ParamsText, GapsOf, Header;
    var ps, more := call.params[..done], call.params[done..];
    assert ps + more == call.params;
    ParamsTextConcat(ps, more);
    PrefixTail(Header(call) + ParamsText(ps), m.buffer, ParamsText(more), s);
    var j;
    j, rest := TakeComplete(more, m.buffer, m);
    n, o := done + j, TakeParams(m);
    assert call.params[..n] == ps + more[..j];
    ParamsTextConcat(ps, more[..j]);
    ParamMapConcat(ps, more[..j], map[]);
    GapsConcat(ps, more[..j]);
    assert j < |more| ==> more[j] == call.params[n];
  }

  lemma PrefixTail(front: string, buffer: string, back: string, s: string)
    requires s == front + buffer && s <= front + back
    ensures buffer <= back
  {
    assert buffer == (front + back)[|front|..][..|buffer|];
    assert (front + back)[|front|..] == back;
  }

  /** The step after the complete parameters have been taken off. */
  lemma DriveTaken(call: Call, s: string, m: Machine, n: nat, rest: string, gaps: string)
    requires WellFormed(call) && m.state == PARSING_PARAMETERS && CutAt(call.params, n, rest)
    requires TakeParams(m).text == gaps && TakeParams(m).tools == [] && TakeParams(m).m.buffer == rest
    ensures var o := TakeParams(m).m;
            if OnlyGap(call.params, n, rest)
            then Drive(m) == Outcome(o.(state := TEXT, buffer := ""), gaps + rest, [ToolUse(o.name, o.params)])
            else Drive(m) == TakeParams(m)
  {
    CutWaits(call.params, n, rest);
    hide TakeParams, CallIsOver, FuncSearch, CutAt, WellFormed, OnlyGap;
    if OnlyGap(call.params, n, rest) {
      IdleText(TakeParams(m).m);
      var end := TakeParams(m).m.(state := TEXT, buffer := "");
      assert Drive(end) == Outcome(end, "", []);
    }
  }

  /**
   * The call ended too soon: the tool with the parameters so far is out, and
   * with the white space that ended it, all that comes now is ordinary text.
   */
  ghost predicate CutShort(call: Call, s: string, o: Outcome, text: string) {
    exists n: nat :: CutShortAt(call, s, o, text, n)
  }

  ghost predicate CutShortAt(call: Call, s: string, o: Outcome, text: string, n: nat) {
    && n < |call.params| && EndsInGapOf(call, s, n)
    && o.m.state == TEXT && o.m.buffer == ""
    && o.tools == [ToolUse(Strip(call.name), ParamMap(call.params[..n], map[]))]
    && text + o.text == GapsOf(call.params[..n]) + s[|Header(call)| + |ParamsText(call.params[..n])|..]
  }

  /** What becomes of the prefix s, when `text` was released before. */
  ghost predicate FedTo(call: Call, s: string, o: Outcome, text: string) {
    if EndsInGap(call, s) then CutShort(call, s, o, text) else o.tools == [] && After(call, s, o.m, text + o.text)
  }

  lemma FedWell(call: Call, s: string, o: Outcome, text: string)
    requires FedTo(call, s, o, text) && !EndsInGap(call, s)
    ensures o.tools == [] && After(call, s, o.m, text + o.text)
  {
  }

  lemma AfterNothing(call: Call, m: Machine, text: string)
    ensures After(call, "", m, text) <==> m.state == TEXT && m.buffer == "" && text == ""
  {
  }

  /** Driving a prefix of the call, bullet first. */
  lemma DriveHeader(call: Call, m: Machine)
    requires WellFormed(call) && m.state == MATCHING_FUNCTION && m.buffer != "" && m.buffer <= CallText(call)
    ensures FedTo(call, m.buffer, Drive(m), "")
  {
    var s, h := m.buffer, Header(call);
    assert s == CallText(call)[..|s|];
    if |s| < |h| {
      assert s == h[..|s|];
      DrivePartHeader(call, m);
    } else {
      assert s == h + s[|h|..];
      DriveWholeHeader(call, m, s[|h|..]);
    }
  }

  lemma DrivePartHeader(call: Call, m: Machine)
    requires WellFormed(call) && m.state == MATCHING_FUNCTION && m.buffer != "" && |m.buffer| < |Header(call)|
    requires m.buffer == Header(call)[..|m.buffer|]
    ensures FedTo(call, m.buffer, Drive(m), "")
  {
    NoFuncYet(m.buffer, call, 0);
    hide TakeParams, FuncSearch, Strip, Header, CallText;
    assert !EndsInGap(call, m.buffer);
    assert Drive(m) == Outcome(m, "", []) && "" + "" == "";
  }

  lemma DriveWholeHeader(call: Call, m: Machine, rest: string)
    requires WellFormed(call) && m.state == MATCHING_FUNCTION && m.buffer == Header(call) + rest && m.buffer <= CallText(call)
    ensures FedTo(call, m.buffer, Drive(m), "")
  {
    FuncFound(call, rest);
    var next := Machine(PARSING_PARAMETERS, rest, Strip(call.name), map[]);
    HeaderDriven(call, m, rest, next);
    assert call.params[..0] == [] && ParamsText([]) == "" && GapsOf([]) == "" && Header(call) + "" == Header(call);
    hide Drive, Header, CallText, WellFormed, FuncSearch, FedTo;
    DriveParams(call, 0, next, m.buffer);
  }

  lemma HeaderDriven(call: Call, m: Machine, rest: string, next: Machine)
    requires m.state == MATCHING_FUNCTION && m.buffer == Header(call) + rest
    requires FuncSearch(m.buffer, 0) == Some(FuncMatch(call.name, |Header(call)|))
    requires next == Machine(PARSING_PARAMETERS, rest, Strip(call.name), map[])
    ensures Drive(m) == Drive(next)
  {
    hide FuncSearch, TakeParams, Strip, Header;
    assert m.buffer[|Header(call)|..] == rest;
  }

  /** The buffer is a tail of what has been fed. */
  lemma BufferIsTail(call: Call, s: string, m: Machine, text: string)
    requires After(call, s, m, text)
    ensures |m.buffer| <= |s| && m.buffer == s[|s| - |m.buffer|..]
  {
    hide Header, ParamsText, GapsOf;
    if s != "" && |s| < |Header(call)| {
      assert s[0..] == s;
    }
  }

  /** So no finished sentinel is in it. */
  lemma FeedNoSentinel(call: Call, s: string, m: Machine, text: string, piece: string, more: string)
    requires WellFormed(call) && After(call, s, m, text) && s + piece <= CallText(call) + more
    requires NoControl(CallText(call) + more)
    ensures StripControlTokens(m.buffer + piece) == m.buffer + piece
    ensures |m.buffer| <= |s| && m.buffer == s[|s| - |m.buffer|..]
  {
    BufferIsTail(call, s, m, text);
    hide *;
    var (whole, n) := (CallText(call) + more, |s| - |m.buffer|);
    AroundBuffer(s, piece, n, whole);
    NoControlInPart(s[..n], m.buffer + piece, whole[|s + piece|..]);
    NoControlNoStrip(m.buffer + piece);
  }

  lemma AroundBuffer(s: string, piece: string, n: nat, whole: string)
    requires n <= |s| && s + piece <= whole
    ensures s[..n] + (s[n..] + piece) + whole[|s + piece|..] == whole
  {
    assert s[..n] + (s[n..] + piece) == s + piece;
  }

  /** The first piece of the call. */
  lemma DriveStart(call: Call, m: Machine)
    requires WellFormed(call) && m.state == TEXT && m.buffer <= CallText(call)
    ensures FedTo(call, m.buffer, Drive(m), "")
  {
    hide TakeParams, CallIsOver, FuncSearch;
    var buffer := m.buffer;
    if buffer == "" {
      assert RFind("", CONTROL_OPEN) == -1;
    } else {
      assert buffer[0] == CallText(call)[0] == BULLET;
      hide FedTo;
      DriveBullet(m);
      DriveHeader(call, m.(state := MATCHING_FUNCTION));
    }
  }

  /** One more piece of the call. */
  lemma FeedPrefix(call: Call, s: string, m: Machine, text: string, piece: string)
    requires WellFormed(call) && After(call, s, m, text) && s + piece <= CallText(call)
    ensures FedTo(call, s + piece, FeedMachine(m, piece), text)
  {
    hide Drive, CallText, StripControlTokens, FedTo;
    assert CallText(call) + "" == CallText(call);
    FeedNoSentinel(call, s, m, text, piece, "");
    var t, m' := s + piece, m.(buffer := m.buffer + piece);
    if s == "" {
      assert m'.buffer == t;
      DriveStart(call, m');
    } else if |s| < |Header(call)| {
      DriveHeader(call, m');
    } else {
      var n: nat :| CompletedTo(call, s, m, n, text);
      assert t == Header(call) + ParamsText(call.params[..n]) + m'.buffer;
      DriveParams(call, n, m', t);
    }
  }

  /** No cut between the pieces leaves white space alone. */
  ghost predicate CutsWell(call: Call, s: string, pieces: seq<string>) {
    forall k :: 0 <= k <= |pieces| ==> !EndsInGap(call, s + Concat(pieces[..k]))
  }

  lemma ConcatFrom(s: string, pieces: seq<string>, k: nat)
    requires pieces != [] && 0 < k <= |pieces|
    ensures s + Concat(pieces[..k]) == s + pieces[0] + Concat(pieces[1..][..k - 1])
  {
    assert pieces[..k][1..] == pieces[1..][..k - 1] && pieces[..k][0] == pieces[0];
  }

  lemma CutsWellNext(call: Call, s: string, pieces: seq<string>)
    requires pieces != []
    ensures s + Concat(pieces) == (s + pieces[0]) + Concat(pieces[1..])
    ensures CutsWell(call, s, pieces) <==> !EndsInGap(call, s) && CutsWell(call, s + pieces[0], pieces[1..])
  {
    assert s + Concat(pieces[..0]) == s;
    assert s + Concat(pieces) == (s + pieces[0]) + Concat(pieces[1..]);
    hide EndsInGap, Concat;
    if CutsWell(call, s, pieces) {
      forall k | 0 <= k <= |pieces[1..]|
        ensures !EndsInGap(call, s + pieces[0] + Concat(pieces[1..][..k]))
      {
        ConcatFrom(s, pieces, k + 1);
      }
    }
    if !EndsInGap(call, s) && CutsWell(call, s + pieces[0], pieces[1..]) {
      forall k | 0 <= k <= |pieces|
        ensures !EndsInGap(call, s + Concat(pieces[..k]))
      {
        if k > 0 { ConcatFrom(s, pieces, k); }
      }
    }
  }

  /** The pieces of a call, or of the beginning of one. */
  lemma {:induction false} FeedWell(call: Call, s: string, m: Machine, text: string, pieces: seq<string>)
    requires WellFormed(call) && After(call, s, m, text) && s + Concat(pieces) <= CallText(call)
    requires CutsWell(call, s, pieces)
    ensures FeedPieces(m, pieces).tools == []
    ensures After(call, s + Concat(pieces), FeedPieces(m, pieces).m, text + FeedPieces(m, pieces).text)
    decreases |pieces|
  {
    hide FeedMachine, CutsWell, EndsInGap, After;
    if pieces == [] {
      assert s + "" == s && text + "" == text;
    } else {
      CutsWellNext(call, s, pieces);
      FeedPrefix(call, s, m, text, pieces[0]);
      NotAtStart(call, s + pieces[0], pieces[1..]);
      var o := FeedMachine(m, pieces[0]);
      FeedWell(call, s + pieces[0], o.m, text + o.text, pieces[1..]);
      var rest := FeedPieces(o.m, pieces[1..]);
      assert text + o.text + rest.text == text + (o.text + rest.text);
    }
  }

  lemma NotAtStart(call: Call, s: string, pieces: seq<string>)
    requires CutsWell(call, s, pieces)
    ensures !EndsInGap(call, s)
  {
    hide EndsInGap;
    assert s + Concat(pieces[..0]) == s;
  }

  /**
   * A call that white space has cut short after n parameters: the rest of it,
   * and what follows, is text. Only an unfinished sentinel may be kept back.
   */
  ghost predicate BrokenAt(call: Call, o: Outcome, text: string, more: string, n: nat) {
    && n < |call.params|
    && o.tools == [ToolUse(Strip(call.name), ParamMap(call.params[..n], map[]))] && FlushMachine(o.m).1 == []
    && text + (o.text + o.m.buffer) == GapsOf(call.params[..n]) + ParamsText(call.params[n..]) + more
    && (o.m.buffer == "" || CONTROL_OPEN <= o.m.buffer)
  }

  lemma {:induction false} FeedBadly(call: Call, s: string, m: Machine, text: string, more: string, pieces: seq<string>)
    returns (n: nat)
    requires WellFormed(call) && After(call, s, m, text) && s + Concat(pieces) == CallText(call) + more
    requires |s| <= |CallText(call)| && Lacks(more, BULLET) && NoControl(CallText(call) + more)
    requires !CutsWell(call, s, pieces) && !EndsInGap(call, s)
    ensures BrokenAt(call, FeedPieces(m, pieces), text, more, n)
    decreases |pieces|
  {
    hide FeedMachine, CutsWell, EndsInGap, After, BrokenAt, CallText, NoControl, WellFormed, Lacks;
    CutsWellNothing(call, s);
    if pieces != [] {
      CutsWellNext(call, s, pieces);
      var (t, o) := (s + pieces[0], FeedMachine(m, pieces[0]));
      WithinCall(call, t, more, pieces[1..]);
      FeedPrefix(call, s, m, text, pieces[0]);
      if EndsInGap(call, t) {
        n :| CutShortAt(call, t, o, text, n);
        RestIsText(call, t, o, text, more, n, pieces[1..]);
      } else {
        n := FeedBadly(call, t, o.m, text + o.text, more, pieces[1..]);
        BrokenBefore(call, o, FeedPieces(o.m, pieces[1..]), text, more, n);
      }
    }
  }

  /** No cut after the end of the call leaves white space alone. */
  lemma WithinCall(call: Call, t: string, more: string, pieces: seq<string>)
    requires t + Concat(pieces) == CallText(call) + more
    requires EndsInGap(call, t) || !CutsWell(call, t, pieces)
    ensures |t| <= |CallText(call)| && t <= CallText(call)
  {
    hide CallText, Concat, EndsInGap;
    forall k | 0 <= k <= |pieces| && EndsInGap(call, t + Concat(pieces[..k]))
      ensures |t| <= |CallText(call)|
    {
      GapIsWithin(call, t + Concat(pieces[..k]));
    }
    if EndsInGap(call, t) { GapIsWithin(call, t); }
    assert t == (CallText(call) + more)[..|t|];
  }

  lemma GapIsWithin(call: Call, s: string)
    requires EndsInGap(call, s)
    ensures |s| < |CallText(call)|
  {
    var n: nat :| n < |call.params| && EndsInGapOf(call, s, n);
    LongEnough(call, n);
    hide Header, ParamsText;
  }

  lemma CutsWellNothing(call: Call, s: string)
    requires !EndsInGap(call, s)
    ensures CutsWell(call, s, [])
  {
    hide EndsInGap;
    assert s + Concat([]) == s;
  }

  lemma BrokenBefore(call: Call, o: Outcome, rest: Outcome, text: string, more: string, n: nat)
    requires BrokenAt(call, rest, text + o.text, more, n) && o.tools == []
    ensures BrokenAt(call, Before(o.text, o.tools, rest), text, more, n)
  {
    hide FlushMachine, ParamsText, GapsOf, ParamMap, Strip;
    assert text + o.text + (rest.text + rest.m.buffer) == text + (o.text + rest.text + rest.m.buffer);
    assert [] + rest.tools == rest.tools;
  }

  lemma RestIsText(call: Call, t: string, o: Outcome, text: string, more: string, n: nat, pieces: seq<string>)
    requires WellFormed(call) && CutShortAt(call, t, o, text, n) && t + Concat(pieces) == CallText(call) + more
    requires t <= CallText(call) && Lacks(more, BULLET) && NoControl(CallText(call) + more)
    ensures BrokenAt(call, Before(o.text, o.tools, FeedPieces(o.m, pieces)), text, more, n)
  {
    hide ParamsText, GapsOf, ParamMap, Strip, Header, CallText, WellFormed, FlushMachine, FeedPieces, Concat, Lacks, NoControl;
    var rest := Concat(pieces);
    RestOfCall(call, t, more, n, rest);
    var end := RestFed(o.m, pieces);
    assert o.tools + [] == o.tools;
    JoinTexts(text, o.text, end.text, end.m.buffer, rest, GapsOf(call.params[..n]),
              t[|Header(call)| + |ParamsText(call.params[..n])|..], ParamsText(call.params[n..]) + more);
    ConcatAssoc(GapsOf(call.params[..n]), ParamsText(call.params[n..]), more);
  }

  /** Text without bullets and finished sentinels is released but for an unfinished sentinel. */
  lemma RestFed(m: Machine, pieces: seq<string>) returns (end: Outcome)
    requires m.state == TEXT && m.buffer == "" && Lacks(Concat(pieces), BULLET) && NoControl(Concat(pieces))
    ensures end == FeedPieces(m, pieces) && end.tools == [] && FlushMachine(end.m).1 == []
    ensures end.text + end.m.buffer == Concat(pieces) && (end.m.buffer == "" || CONTROL_OPEN <= end.m.buffer)
  {
    end := FeedPieces(m, pieces);
    assert "" + "" + Concat(pieces) == Concat(pieces) && "" + Concat(pieces) == Concat(pieces);
    hide FeedPieces, NoControl, FlushMachine;
    FeedAllText(m, "", pieces);
    CarriedStarts("", pieces);
    FlushText(end.m);
  }

  lemma JoinTexts(text: string, more: string, released: string, kept: string, rest: string, gaps: string, tail: string,
                  all: string)
    requires text + more == gaps + tail && released + kept == rest && tail + rest == all
    ensures text + (more + released + kept) == gaps + all
  {
    assert text + (more + released + kept) == text + more + (released + kept) == gaps + tail + rest;
  }

  lemma RestOfCall(call: Call, t: string, more: string, n: nat, rest: string)
    requires WellFormed(call) && n < |call.params| && t + rest == CallText(call) + more && t <= CallText(call)
    requires |Header(call)| + |ParamsText(call.params[..n])| <= |t|
    requires Lacks(more, BULLET) && NoControl(CallText(call) + more)
    ensures t[|Header(call)| + |ParamsText(call.params[..n])|..] + rest == ParamsText(call.params[n..]) + more
    ensures Lacks(rest, BULLET) && NoControl(rest)
  {
    hide *;
    var (ps, all) := (call.params[..n], call.params[n..]);
    CallSplits(call, n);
    MoreLacks(all);
    LacksBoth(ParamsText(all), more, BULLET);
    CutTail(Header(call), ParamsText(ps), ParamsText(all), more, t, rest);
    TailLacks(ParamsText(all) + more, rest, BULLET);
    assert t + rest + "" == t + rest;
    NoControlInPart(t, rest, "");
  }

  lemma CallSplits(call: Call, n: nat)
    requires WellFormed(call) && n <= |call.params|
    ensures CallText(call) == Header(call) + (ParamsText(call.params[..n]) + ParamsText(call.params[n..]))
    ensures forall k :: 0 <= k < |call.params[n..]| ==> WellFormedParam(call.params[n..][k])
  {
    hide ParamsText, WellFormedParam, Header;
    assert call.params[..n] + call.params[n..] == call.params;
    ParamsTextConcat(call.params[..n], call.params[n..]);
  }

  lemma MoreLacks(ps: seq<Param>)
    requires forall k :: 0 <= k < |ps| ==> WellFormedParam(ps[k])
    ensures Lacks(ParamsText(ps), BULLET)
  {
    hide TagText;
    ParamsLack(ps, BULLET);
  }

  lemma CutTail(head: string, front: string, back: string, more: string, t: string, rest: string)
    requires t + rest == head + (front + back) + more && |head| + |front| <= |t| <= |head| + |front| + |back|
    ensures t[|head| + |front|..] + rest == back + more && |rest| <= |back + more| && rest == (back + more)[|back + more| - |rest|..]
  {
    var start := |head| + |front|;
    assert (t + rest)[start..] == t[start..] + rest;
    assert (head + (front + back) + more)[start..] == back + more;
  }

  lemma TailLacks(s: string, rest: string, c: char)
    requires Lacks(s, c) && |rest| <= |s| && rest == s[|s| - |rest|..]
    ensures Lacks(rest, c)
  {
    assert forall i :: 0 <= i < |rest| ==> rest[i] == s[|s| - |rest| + i];
  }

  /** Exactly one tool, with the stripped name and all parameters, and as text just the white space between the tags. */
  ghost predicate Recovered(call: Call, o: Outcome) {
    o.text == GapsOf(call.params) && o.tools + FlushMachine(o.m).1 == [ToolOf(call)]
  }

  /**
   * A well-formed call is recovered from its pieces exactly when no cut
   * between them leaves only white space after the last complete tag.
   */
  lemma CallRecoveredExactly(call: Call, pieces: seq<string>)
    requires WellFormed(call) && Concat(pieces) == CallText(call)
    ensures Recovered(call, FeedPieces(START, pieces)) <==> CutsWell(call, "", pieces)
  {
    assert "" + Concat(pieces) == CallText(call);
    hide FeedPieces, CutsWell, WellFormed;
    var o := FeedPieces(START, pieces);
    assert "" + o.text == o.text;
    assert !EndsInGap(call, "");
    if CutsWell(call, "", pieces) {
      FeedWell(call, "", START, "", pieces);
      CallFlushed(call, o.m, o.text);
    } else {
      assert Concat(pieces) + "" == Concat(pieces) && CallText(call) + "" == CallText(call);
      var n := FeedBadly(call, "", START, "", "", pieces);
      BrokenIsDifferent(call, o, n);
    }
  }

  /** The text of a call that was cut short holds a tag. */
  lemma BrokenIsDifferent(call: Call, o: Outcome, n: nat)
    requires WellFormed(call) && BrokenAt(call, o, "", "", n)
    ensures o.text != GapsOf(call.params)
  {
    var (ps, more) := (call.params[..n], call.params[n..]);
    assert ps + more == call.params;
    GapsConcat(ps, more);
    GapsAreSpace(call.params);
    TagAfterGap(more);
    var k := |more[0].gap|;
    assert GapsOf(more) == more[0].gap + GapsOf(more[1..]);
    hide *;
    assert "" + (o.text + o.m.buffer) == o.text + o.m.buffer;
    assert ParamsText(more) + "" == ParamsText(more);
    NoTagInGaps(o.text, o.m.buffer, GapsOf(ps), more[0].gap, GapsOf(more[1..]), ParamsText(more), GapsOf(call.params));
  }

  lemma NoTagInGaps(text: string, kept: string, before: string, gap: string, later: string, tags: string, gaps: string)
    requires text + kept == before + tags && gaps == before + (gap + later) && AllSpace(gaps)
    requires gap <= tags && |tags| > |gap| + 1 && tags[|gap|] == '<' && tags[|gap| + 1] == 'p'
    requires kept == "" || CONTROL_OPEN <= kept
    ensures text != gaps
  {
    var (k, all) := (|before| + |gap|, before + tags);
    assert |gaps| >= k && all[k] == '<' && all[k + 1] == 'p';
    assert |text| > k ==> text[k] == (text + kept)[k] == all[k];
    assert |gaps| > k ==> IsSpace(gaps[k]);
    assert kept == (text + kept)[|text|..] == all[|text|..];
    assert kept != "" ==> kept[1] == '|';
  }

  lemma TagAfterGap(ps: seq<Param>)
    requires ps != []
    ensures var k := |ps[0].gap|;
            |ParamsText(ps)| > k + 1 && ps[0].gap <= ParamsText(ps) && ParamsText(ps)[k] == '<' && ParamsText(ps)[k + 1] == 'p'
  {
  }

  lemma {:induction false} GapsAreSpace(ps: seq<Param>)
    requires forall k :: 0 <= k < |ps| ==> AllSpace(ps[k].gap)
    ensures AllSpace(GapsOf(ps))
  {
    if ps != [] { GapsAreSpace(ps[1..]); }
  }

  /** Without white space between the tags every chunking will do. */
  lemma CallRecovered(call: Call, pieces: seq<string>)
    requires WellFormed(call) && Concat(pieces) == CallText(call)
    requires forall k :: 0 <= k < |call.params| ==> call.params[k].gap == ""
    ensures var o := FeedPieces(START, pieces);
            o.text == "" && o.tools == [] && FlushMachine(o.m).1 == [ToolOf(call)]
  {
    assert "" + Concat(pieces) == CallText(call);
    assert CutsWell(call, "", pieces);
    NoGaps(call.params);
    hide FeedPieces, CutsWell, WellFormed;
    var o := FeedPieces(START, pieces);
    FeedWell(call, "", START, "", pieces);
    assert "" + o.text == o.text;
    CallFlushed(call, o.m, o.text);
  }

  lemma {:induction false} NoGaps(ps: seq<Param>)
    requires forall k :: 0 <= k < |ps| ==> ps[k].gap == ""
    ensures GapsOf(ps) == ""
  {
    if ps != [] { NoGaps(ps[1..]); }
  }

  /** White space that arrives alone right after the header ends the call without any parameter. */
  lemma LoneSpaceEndsCall(name: string, space: string)
    requires AllSpace(space) && space != ""
    ensures FeedMachine(Machine(PARSING_PARAMETERS, "", name, map[]), space)
         == Outcome(Machine(TEXT, "", name, map[]), space, [ToolUse(name, map[])])
  {
    assert "" + space == space && Lacks(space, '|');
    StripNothing(space);
    SpaceWaitsForNothing(space);
    var m := Machine(PARSING_PARAMETERS, space, name, map[]);
    TakeNone(m);
    IdleText(m);
    hide TakeParams, CallIsOver, StripControlTokens;
    assert Drive(m) == Before("" + space, [ToolUse(name, map[])], Drive(m.(state := TEXT, buffer := "")));
  }

  lemma SpaceWaitsForNothing(space: string)
    requires AllSpace(space) && space != ""
    ensures ClosedParam(space).None? && CallIsOver(space) && SplitAtBullet(space) == (space, "")
  {
    assert forall i :: 0 <= i < |space| ==> space[i] != '<' && space[i] != BULLET;
    assert forall i, p: string :: OccursAt(space, p, i) && p != "" ==> space[i] == space[i..i + |p|][0] == p[0];
    NoClosedWithoutClose(space);
    StripAllSpace(space);
  }

  /** The tool that the call stands for. */
  function ToolOf(call: Call): ToolUse {
    ToolUse(Strip(call.name), ParamMap(call.params, map[]))
  }

  lemma CallFlushed(call: Call, m: Machine, text: string)
    requires WellFormed(call) && After(call, CallText(call), m, text)
    ensures FlushMachine(m).1 == [ToolOf(call)] && text == GapsOf(call.params)
  {
    var n: nat :| CompletedTo(call, CallText(call), m, n, text);
    FullyConsumed(call, m, n, text);
    assert call.params[..|call.params|] == call.params;
    assert OpenParam("", 0).None?;
  }

  /** At the end of the call nothing is left in the buffer. */
  lemma FullyConsumed(call: Call, m: Machine, n: nat, text: string)
    requires CompletedTo(call, CallText(call), m, n, text)
    ensures n == |call.params| && m.buffer == ""
  {
    if n < |call.params| { LongEnough(call, n); }
  }

  lemma LongEnough(call: Call, n: nat)
    requires n < |call.params|
    ensures |CallText(call)| >= |Header(call)| + |ParamsText(call.params[..n])| + |ParamText(call.params[n])|
  {
    var ps, more := call.params[..n], call.params[n..];
    assert ps + more == call.params;
    ParamsTextConcat(ps, more);
    assert ParamsText(more) == ParamText(more[0]) + ParamsText(more[1..]);
  }

  lemma CallEnds(call: Call)
    ensures CallText(call) != "" && CallText(call)[|CallText(call)| - 1] == '>'
  {
    ParamsEnd(call.params);
  }

  lemma {:induction false} ParamsEnd(ps: seq<Param>)
    ensures ps != [] ==> ParamsText(ps) != "" && ParamsText(ps)[|ParamsText(ps)| - 1] == '>'
  {
    if |ps| > 1 {
      ParamsEnd(ps[1..]);
    } else if |ps| == 1 {
      assert ParamsText(ps) == ParamText(ps[0]);
    }
  }

}
