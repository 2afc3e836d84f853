/**
 * What the text tool-call parser makes of several calls in a row
 * (providers/common/heuristic_tool_parser.py).
 */
module ManyCalls {
  import opened Text
  import opened HeuristicParser
  import opened HeuristicText
  import opened HeuristicCalls
  import opened CallsInText
  import TP = ToolPatterns

  ghost predicate BeginsCall(s: string) {
    s != "" && s[0] == BULLET
  }

  ghost predicate NoClosingTag(s: string) {
    forall i :: !OccursAt(s, "</parameter>", i)
  }

  // ----- The piece in which the bullet of the next call comes -----

  /** The machine that has handed out the call. */
  function Ended(call: Call): Machine {
    Machine(TEXT, "", Strip(call.name), ToolOf(call).input)
  }

  lemma NothingClosed(x: string, front: string)
    requires Aside(x) && BeginsCall(front) && NoClosingTag(front)
    ensures ClosedParam(x + front).None?
  {
    var s := x + front;
    var m := ParamSearch(s, 0);
    if m.Some? {
      ParamIsAt(s, 0);
      var i := m.value.start;
      NoTagBeforeBullet(x, front);
      forall j ensures !OccursAt(s[i..m.value.end], PARAM_CLOSE, j) {
        OccursInSlice(s, i, m.value.end, PARAM_CLOSE, j);
        if OccursAt(s, PARAM_CLOSE, i + j) && j >= 0 { OccursInBack(x, front, PARAM_CLOSE, i + j); }
      }
    }
  }

  lemma OccursInBack(x: string, front: string, p: string, k: int)
    requires OccursAt(x + front, p, k) && k >= |x|
    ensures OccursAt(front, p, k - |x|)
  {
    assert (x + front)[k..k + |p|] == front[k - |x|..k - |x| + |p|];
  }

  lemma {:induction false} ParamIsAt(s: string, from: nat)
    requires from <= |s|
    ensures var m := ParamSearch(s, from); m.Some? ==> OccursAt(s, PARAM_OPEN, m.value.start)
    decreases |s| - from
  {
    if ParamAt(s, from).None? && from < |s| { ParamIsAt(s, from + 1); }
  }

  lemma NoTagBeforeBullet(x: string, front: string)
    requires Aside(x) && BeginsCall(front)
    ensures forall i :: i < |x| ==> !OccursAt(x + front, PARAM_OPEN, i)
  {
    assert forall k :: 0 <= k < |PARAM_OPEN| ==> PARAM_OPEN[k] != BULLET;
    assert (x + front)[|x|] == BULLET;
    forall i | i < |x| ensures !OccursAt(x + front, PARAM_OPEN, i) {
      if i + |PARAM_OPEN| <= |x| {
        OccursInFront(x, front, PARAM_OPEN, i);
      } else {
        OccursChar(x + front, PARAM_OPEN, i, |x| - i);
      }
    }
  }

  lemma SplitsThere(x: string, front: string)
    requires Lacks(x, BULLET) && BeginsCall(front)
    ensures CallIsOver(x + front) && SplitAtBullet(x + front) == (x, front)
  {
    var s := x + front;
    assert s[|x|] == BULLET && forall i :: 0 <= i < |x| ==> s[i] == x[i];
    IndexExactly(s, BULLET, 0, |x|);
    assert s[..|x|] == x && s[|x|..] == front;
  }

  /** The call ends, the text up to the bullet is released, and the machine starts again at the bullet. */
  lemma DriveAtBullet(call: Call, n: nat, m: Machine, x: string, front: string)
    requires WellFormed(call) && n <= |call.params| && Aside(x) && BeginsCall(front) && NoClosingTag(front)
    requires m.state == PARSING_PARAMETERS && m.name == Strip(call.name) && m.params == ParamMap(call.params[..n], map[])
    requires m.buffer == ParamsText(call.params[n..]) + (x + front)
    ensures Drive(m) == Before(GapsOf(call.params[n..]) + x, [ToolOf(call)], Drive(Ended(call).(buffer := front)))
  {
    AsideLacks(x);
    hide *;
    NothingClosed(x, front);
    SplitsThere(x, front);
    AllParams(call, n);
    TakeAll(call.params[n..], x + front, m);
    DriveOver(m, x, front, ToolOf(call).input, GapsOf(call.params[n..]));
    EndedIs(call);
  }

  lemma EndedIs(call: Call)
    ensures Ended(call) == Machine(TEXT, "", Strip(call.name), ToolOf(call).input)
  {
  }

  lemma AsideLacks(x: string)
    requires Aside(x)
    ensures Lacks(x, BULLET)
  {
  }

  lemma DriveOver(m: Machine, x: string, front: string, params: map<string, string>, gaps: string)
    requires m.state == PARSING_PARAMETERS
    requires TakeParams(m) == Outcome(m.(buffer := x + front, params := params), gaps, [])
    requires CallIsOver(x + front) && SplitAtBullet(x + front) == (x, front)
    ensures Drive(m) == Before(gaps + x, [ToolUse(m.name, params)], Drive(Machine(TEXT, front, m.name, params)))
  {
    hide TakeParams, CallIsOver, SplitAtBullet, FuncSearch, Strip;
    assert m.(buffer := x + front, params := params).(state := TEXT, buffer := front) == Machine(TEXT, front, m.name, params);
  }

  /** The piece that ends the call and brings the bullet of the next one. */
  lemma FeedAtBullet(call: Call, s: string, m: Machine, text: string, piece: string, x: string, front: string)
    returns (gaps: string)
    requires WellFormed(call) && After(call, s, m, text) && s + piece == CallText(call) + (x + front)
    requires NoControl(CallText(call) + (x + front)) && |s| <= |CallText(call)|
    requires Aside(x) && BeginsCall(front) && NoClosingTag(front)
    ensures FeedMachine(m, piece) == Before(gaps + x, [ToolOf(call)], FeedMachine(Ended(call), front))
    ensures text + gaps == GapsOf(call.params)
  {
    var n := WhereAfter(call, s, m, text);
    hide *;
    FeedNoSentinel(call, s, m, text, piece, x + front);
    FeedIsDrive(m, piece);
    ConcatAssoc(CallText(call), x, front);
    BulletFed(call, CallText(call) + x, front);
    var m' := m.(buffer := m.buffer + piece);
    if |s| < |Header(call)| {
      WholeCall(call, s, m, text, piece, x + front);
      DriveHeaderToBullet(call, m', x, front);
      gaps := GapsOf(call.params);
      assert "" + gaps == gaps;
    } else {
      PartOfCall(call, s, m, text, piece, x + front, n);
      DriveAtBullet(call, n, m', x, front);
      gaps := GapsOf(call.params[n..]);
      GapsSplit(call, n);
    }
  }

  lemma BulletFed(call: Call, before: string, front: string)
    requires NoControl(before + front)
    ensures FeedMachine(Ended(call), front) == Drive(Ended(call).(buffer := front))
  {
    hide *;
    assert before + front + "" == before + front;
    NoControlInPart(before, front, "");
    NoControlNoStrip(front);
    EndedIs(call);
    assert "" + front == front;
    FeedIsDrive(Ended(call), front);
  }

  lemma DriveHeaderToBullet(call: Call, m: Machine, x: string, front: string)
    requires WellFormed(call) && Aside(x) && BeginsCall(front) && NoClosingTag(front) && m.state != PARSING_PARAMETERS
    requires m.buffer == Header(call) + (ParamsText(call.params) + (x + front))
    ensures Drive(m) == Before(GapsOf(call.params) + x, [ToolOf(call)], Drive(Ended(call).(buffer := front)))
  {
    var rest := ParamsText(call.params) + (x + front);
    assert m.buffer[0] == Header(call)[0] == BULLET;
    assert call.params[..0] == [] && call.params[0..] == call.params && ParamMap([], map[]) == map[];
    FoundIs(call, rest);
    NoneBefore(m.buffer);
    assert "" + m.buffer == m.buffer;
    hide *;
    if m.state == TEXT { DriveBullet(m); }
    SkipsToHeader(call, m.(state := MATCHING_FUNCTION), "", rest);
    DriveAtBullet(call, 0, Found(call, rest), x, front);
  }

  /** Held text is released when the bullet comes. */
  lemma FeedHeldToBullet(call: Call, m: Machine, piece: string, x: string, front: string)
    requires m.state == PARSING_PARAMETERS && m.name == Strip(call.name) && m.params == ToolOf(call).input
    requires m.buffer + piece == x + front && NoControl(x + front)
    requires Aside(x) && BeginsCall(front) && NoClosingTag(front)
    ensures FeedMachine(m, piece) == Before(x, [ToolOf(call)], FeedMachine(Ended(call), front))
  {
    AsideLacks(x);
    ToolIs(call);
    hide *;
    NothingClosed(x, front);
    SplitsThere(x, front);
    BulletFed(call, x, front);
    var m' := m.(buffer := x + front);
    NoControlNoStrip(x + front);
    FeedIsDrive(m, piece);
    TakeNone(m');
    assert "" + x == x;
    DriveOver(m', x, front, m.params, "");
    EndedIs(call);
  }

  lemma ToolIs(call: Call)
    ensures ToolOf(call) == ToolUse(Strip(call.name), ToolOf(call).input)
  {
  }

  /** Text before a bullet, when no call is open: it is released. */
  lemma FeedTextToBullet(m: Machine, x: string, front: string)
    requires m.state == TEXT && m.buffer == "" && Lacks(x, BULLET) && BeginsCall(front) && NoControl(x + front)
    ensures FeedMachine(m, x + front) == Before(x, [], FeedMachine(m, front))
  {
    var rest := front[1..];
    assert front == [BULLET] + rest && "" + (x + front) == x + front && "" + front == front;
    assert x + front + "" == x + front && x + ([BULLET] + rest) == x + [BULLET] + rest;
    assert "" + [BULLET] + rest == [BULLET] + rest;
    hide *;
    NoControlInPart(x, front, "");
    NoControlNoStrip(x + front);
    NoControlNoStrip(front);
    FeedIsDrive(m, x + front);
    FeedIsDrive(m, front);
    DriveToBullet(m.(buffer := x + front), x, rest);
    LacksNothing();
    DriveToBullet(m.(buffer := front), "", rest);
    BeforeNothing(Drive(m.(state := MATCHING_FUNCTION, buffer := front)));
  }

  lemma LacksNothing()
    ensures Lacks("", BULLET)
  {
  }

  // ----- From the end of a call to the next bullet -----

  /** The call is over and its text released, or the text is held with the call. */
  lemma {:induction false} TextToBullet(m: Machine, x: string, rest: string, pieces: seq<string>)
    requires m.state == TEXT && m.buffer == "" && Lacks(x, BULLET) && Lacks(x, '|') && BeginsCall(rest) && NoControl(x + rest)
    requires Concat(pieces) == x + rest
    ensures FeedPieces(m, pieces) == Before(x, [], FeedPieces(m, Beyond(|x|, pieces)))
    decreases |pieces|
  {
    hide *;
    NotEmpty(x, rest, pieces);
    BeyondNext(|x|, pieces);
    FeedFirst(m, pieces[0], pieces[1..]);
    var (p, later) := (pieces[0], Concat(pieces[1..]));
    if |p| <= |x| {
      var y := x[|p|..];
      SplitText(x, rest, p, later, y);
      PartLacks(p, y, x);
      NoControlRest(p, y, rest);
      PlainTextPasses(m, p);
      TextToBullet(m, y, rest, pieces[1..]);
      JoinBefore(p, [], y, [], FeedPieces(m, Beyond(|y|, pieces[1..])));
      NoTools();
    } else {
      var front := p[|x|..];
      CutPiece(x, rest, p, later, front);
      NoControlFront(x, front, later, rest);
      FeedTextToBullet(m, x, front);
      FeedFirst(m, front, pieces[1..]);
      var d := FeedMachine(m, front);
      BeforeHas(x, [], d);
      BeforeBefore(x, [], d.text, d.tools, FeedPieces(d.m, pieces[1..]));
    }
  }

  lemma NoTools()
    ensures var none: seq<ToolUse> := []; none + none == none
  {
  }

  lemma BeforeHas(text: string, tools: seq<ToolUse>, d: Outcome)
    ensures var o := Before(text, tools, d);
            o.m == d.m && o.text == text + d.text && o.tools == tools + d.tools
  {
  }

  lemma JoinBefore(a: string, u: seq<ToolUse>, b: string, v: seq<ToolUse>, o: Outcome)
    ensures Before(a, u, Before(b, v, o)) == Before(a + b, u + v, o)
  {
    BeforeBefore(a, u, b, v, o);
  }

  lemma NotEmpty(x: string, rest: string, pieces: seq<string>)
    requires Concat(pieces) == x + rest && BeginsCall(rest)
    ensures pieces != [] && pieces == [pieces[0]] + pieces[1..] && Concat(pieces) == pieces[0] + Concat(pieces[1..])
  {
    assert pieces == [] ==> |Concat(pieces)| == 0;
  }

  lemma SplitText(x: string, rest: string, p: string, later: string, y: string)
    requires p + later == x + rest && |p| <= |x| && y == x[|p|..]
    ensures x == p + y && later == y + rest
  {
    assert (p + later)[..|p|] == p && (x + rest)[..|p|] == x[..|p|];
    assert (p + later)[|p|..] == later && (x + rest)[|p|..] == y + rest;
  }

  lemma PartLacks(p: string, y: string, x: string)
    requires x == p + y && Lacks(x, BULLET) && Lacks(x, '|')
    ensures Lacks(p, BULLET) && Lacks(p, '|') && Lacks(y, BULLET) && Lacks(y, '|')
  {
    LacksBoth(p, y, BULLET);
    LacksBoth(p, y, '|');
  }

  lemma NoControlRest(p: string, y: string, rest: string)
    requires NoControl(p + y + rest)
    ensures NoControl(y + rest)
  {
    hide *;
    assert p + (y + rest) + "" == p + y + rest;
    NoControlInPart(p, y + rest, "");
  }

  lemma CutPiece(x: string, rest: string, p: string, later: string, front: string)
    requires p + later == x + rest && |p| > |x| && front == p[|x|..] && BeginsCall(rest)
    ensures p == x + front && rest == front + later && BeginsCall(front)
  {
    assert (p + later)[..|x|] == p[..|x|] && (x + rest)[..|x|] == x;
    assert (p + later)[|x|..] == front + later && (x + rest)[|x|..] == rest;
  }

  lemma NoControlFront(x: string, front: string, later: string, rest: string)
    requires NoControl(x + rest) && rest == front + later
    ensures NoControl(x + front)
  {
    hide *;
    assert "" + (x + front) + later == x + rest by { ConcatAssoc(x, front, later); assert "" + (x + front) == x + front; }
    NoControlInPart("", x + front, later);
  }

  /** The same when some text is held. */
  lemma {:induction false} HeldToBullet(call: Call, m: Machine, x: string, rest: string, pieces: seq<string>)
    requires m.state == PARSING_PARAMETERS && m.name == Strip(call.name) && m.params == ToolOf(call).input
    requires m.buffer != "" && LooksLikeTag(m.buffer) && Aside(m.buffer + x) && BeginsCall(rest) && NoControl(m.buffer + x + rest)
    requires Concat(pieces) == x + rest
    requires var later := Beyond(|x|, pieces); later != [] ==> NoClosingTag(later[0])
    ensures FeedPieces(m, pieces) == Before(m.buffer + x, [ToolOf(call)], FeedPieces(Ended(call), Beyond(|x|, pieces)))
    decreases |pieces|
  {
    hide *;
    NotEmpty(x, rest, pieces);
    BeyondNext(|x|, pieces);
    FeedFirst(m, pieces[0], pieces[1..]);
    var (p, later) := (pieces[0], Concat(pieces[1..]));
    if |p| <= |x| {
      var y := x[|p|..];
      SplitText(x, rest, p, later, y);
      ConcatAssoc(m.buffer, p, y);
      AsideParts(m.buffer + p, y);
      TagGrows(m.buffer, p);
      StillHeld(m, p);
      HoldOne(m, p);
      var held := m.(buffer := m.buffer + p);
      HeldToBullet(call, held, y, rest, pieces[1..]);
      BeforeNothing(FeedPieces(held, pieces[1..]));
    } else {
      var front := p[|x|..];
      CutPiece(x, rest, p, later, front);
      FirstIs(front, pieces[1..]);
      ConcatAssoc(m.buffer, x, front);
      NoControlFront(m.buffer + x, front, later, rest);
      FeedHeldToBullet(call, m, p, m.buffer + x, front);
      FeedFirst(Ended(call), front, pieces[1..]);
      var d := FeedMachine(Ended(call), front);
      BeforeHas(m.buffer + x, [ToolOf(call)], d);
      BeforeBefore(m.buffer + x, [ToolOf(call)], d.text, d.tools, FeedPieces(d.m, pieces[1..]));
    }
  }

  lemma StillHeld(m: Machine, p: string)
    requires m.buffer != ""
    ensures m.buffer + p != "" && m.(buffer := m.buffer + p).buffer == m.buffer + p
  {
  }

  lemma FirstIs(front: string, later: seq<string>)
    ensures [front] + later != [] && ([front] + later)[0] == front
  {
  }

  // ----- A call and what comes before the next bullet -----

  /** What has been fed is within the call. */
  lemma {:induction false} FeedToBullet(call: Call, s: string, m: Machine, text: string, x: string, rest: string, pieces: seq<string>)
    returns (released: string)
    requires WellFormed(call) && After(call, s, m, text) && Aside(x) && BeginsCall(rest) && NoControl(CallText(call) + (x + rest))
    requires s + Concat(pieces) == CallText(call) + (x + rest) && |s| <= |CallText(call)| && CutsWell(call, s, pieces)
    requires var later := Beyond(|CallText(call)| + |x| - |s|, pieces); later != [] ==> NoClosingTag(later[0])
    ensures FeedPieces(m, pieces)
         == Before(released, [ToolOf(call)], FeedPieces(Ended(call), Beyond(|CallText(call)| + |x| - |s|, pieces)))
    ensures text + released == GapsOf(call.params) + x
    decreases |pieces|
  {
    hide *;
    MoreIsThere(x, rest);
    SomePieces(CallText(call), s, x + rest, pieces);
    CutsWellNext(call, s, pieces);
    BeyondNext(|CallText(call)| + |x| - |s|, pieces);
    FeedFirst(m, pieces[0], pieces[1..]);
    var (p, t, o) := (pieces[0], s + pieces[0], FeedMachine(m, pieces[0]));
    var later := Concat(pieces[1..]);
    if |t| <= |CallText(call)| {
      PrefixOf(t, later, CallText(call), x + rest);
      NotAtStart(call, t, pieces[1..]);
      FeedPrefix(call, s, m, text, p);
      FedWell(call, t, o, text);
      released := FeedToBullet(call, t, o.m, text + o.text, x, rest, pieces[1..]);
      released := JoinReleased(text, o, released, ToolOf(call), FeedPieces(Ended(call), Beyond(|CallText(call)| + |x| - |t|, pieces[1..])));
    } else {
      var front := t[|CallText(call)|..];
      SplitMore(CallText(call), x + rest, t, later, front);
      if |front| <= |x| {
        released := EndBeforeBullet(call, s, m, text, x, rest, p, front, pieces[1..]);
      } else {
        BeyondPiece(s, p, CallText(call), x, front);
        FirstIs(front[|x|..], pieces[1..]);
        released := EndAtBullet(call, s, m, text, x, rest, p, front, pieces[1..]);
      }
    }
  }

  lemma MoreIsThere(x: string, rest: string)
    requires BeginsCall(rest)
    ensures x + rest != ""
  {
  }

  lemma BeyondPiece(s: string, p: string, whole: string, x: string, front: string)
    requires s + p == whole + front && |s| <= |whole| && |front| > |x|
    ensures p[|whole| + |x| - |s|..] == front[|x|..]
  {
    var k := |whole| + |x|;
    assert (s + p)[k..] == p[k - |s|..] && (whole + front)[k..] == front[|x|..];
  }

  lemma JoinReleased(text: string, o: Outcome, rest: string, tool: ToolUse, f: Outcome) returns (released: string)
    requires o.tools == []
    ensures Before(o.text, o.tools, Before(rest, [tool], f)) == Before(released, [tool], f)
    ensures text + released == text + o.text + rest
  {
    released := o.text + rest;
    BeforeBefore(o.text, o.tools, rest, [tool], f);
    assert [] + [tool] == [tool];
    ConcatAssoc(text, o.text, rest);
  }

  /** The piece ends within the text after the call. */
  lemma EndBeforeBullet(call: Call, s: string, m: Machine, text: string, x: string, rest: string, p: string, y: string,
                        pieces: seq<string>) returns (released: string)
    requires WellFormed(call) && After(call, s, m, text) && Aside(x) && BeginsCall(rest) && NoControl(CallText(call) + (x + rest))
    requires s + p == CallText(call) + y && |s| <= |CallText(call)| && y != "" && |y| <= |x| && y + Concat(pieces) == x + rest
    requires var later := Beyond(|x| - |y|, pieces); later != [] ==> NoClosingTag(later[0])
    ensures Before(FeedMachine(m, p).text, FeedMachine(m, p).tools, FeedPieces(FeedMachine(m, p).m, pieces))
         == Before(released, [ToolOf(call)], FeedPieces(Ended(call), Beyond(|x| - |y|, pieces)))
    ensures text + released == GapsOf(call.params) + x
  {
    hide *;
    var z := x[|y|..];
    SplitText(x, rest, y, Concat(pieces), z);
    AsideParts(y, z);
    FrontNoControl(CallText(call), y, z, rest);
    var gaps := FeedPastEnd(call, s, m, text, p, y);
    var d := FeedMachine(m, p);
    var f := FeedPieces(Ended(call), Beyond(|z|, pieces));
    released := gaps + x;
    ConcatAssoc(text, gaps, x);
    EndIs(call, gaps, y);
    EndedIs(call);
    if LooksLikeTag(y) {
      HeldMachine(call, y);
      HeldToBullet(call, d.m, z, rest, pieces);
      BeforeBefore(gaps, [], x, [ToolOf(call)], f);
      OneTool(ToolOf(call));
    } else {
      AsideIs(z);
      TextToBullet(Ended(call), z, rest, pieces);
      ConcatAssoc(gaps, y, z);
      BeforeBefore(gaps + y, [ToolOf(call)], z, [], f);
      OneTool(ToolOf(call));
    }
  }

  lemma AsideIs(z: string)
    requires Aside(z)
    ensures Lacks(z, BULLET) && Lacks(z, '|')
  {
  }

  lemma OneTool(tool: ToolUse)
    ensures [tool] + [] == [tool] == [] + [tool]
  {
  }

  lemma HeldMachine(call: Call, y: string)
    ensures var m := Machine(PARSING_PARAMETERS, y, Strip(call.name), ToolOf(call).input);
            m.state == PARSING_PARAMETERS && m.name == Strip(call.name) && m.params == ToolOf(call).input && m.buffer == y
  {
  }

  lemma FrontNoControl(whole: string, y: string, z: string, rest: string)
    requires NoControl(whole + (y + z + rest))
    ensures NoControl(whole + y) && NoControl(z + rest) && NoControl(y + z + rest)
  {
    hide *;
    var all := whole + (y + z + rest);
    assert "" + (whole + y) + (z + rest) == all;
    assert whole + y + (z + rest) == all && all + "" == all;
    NoControlInPart("", whole + y, z + rest);
    NoControlInPart(whole + y, z + rest, "");
    NoControlInPart(whole, y + z + rest, "");
  }

  /** The piece brings the bullet. */
  lemma EndAtBullet(call: Call, s: string, m: Machine, text: string, x: string, rest: string, p: string, y: string,
                    pieces: seq<string>) returns (released: string)
    requires WellFormed(call) && After(call, s, m, text) && Aside(x) && BeginsCall(rest) && NoControl(CallText(call) + (x + rest))
    requires s + p == CallText(call) + y && |s| <= |CallText(call)| && |y| > |x| && y + Concat(pieces) == x + rest
    requires NoClosingTag(y[|x|..])
    ensures Before(FeedMachine(m, p).text, FeedMachine(m, p).tools, FeedPieces(FeedMachine(m, p).m, pieces))
         == Before(released, [ToolOf(call)], FeedPieces(Ended(call), [y[|x|..]] + pieces))
    ensures text + released == GapsOf(call.params) + x
  {
    hide *;
    var front := y[|x|..];
    CutPiece(x, rest, y, Concat(pieces), front);
    FrontNoControlToo(CallText(call), x, front, Concat(pieces), rest);
    var gaps := FeedAtBullet(call, s, m, text, p, x, front);
    released := gaps + x;
    ConcatAssoc(text, gaps, x);
    FeedFirst(Ended(call), front, pieces);
    var d := FeedMachine(Ended(call), front);
    BeforeHas(released, [ToolOf(call)], d);
    BeforeBefore(released, [ToolOf(call)], d.text, d.tools, FeedPieces(d.m, pieces));
  }

  lemma FrontNoControlToo(whole: string, x: string, front: string, later: string, rest: string)
    requires NoControl(whole + (x + rest)) && rest == front + later
    ensures NoControl(whole + (x + front))
  {
    hide *;
    assert "" + (whole + (x + front)) + later == whole + (x + rest);
    NoControlInPart("", whole + (x + front), later);
  }

  // ----- Calls in a row -----

  /** A call and the text after it. */
  datatype Turn = Turn(call: Call, aside: string)

  function TurnsText(turns: seq<Turn>): string {
    if turns == [] then "" else CallText(turns[0].call) + (turns[0].aside + TurnsText(turns[1..]))
  }

  function ToolsOf(turns: seq<Turn>): seq<ToolUse> {
    seq(|turns|, i requires 0 <= i < |turns| => ToolOf(turns[i].call))
  }

  /** The pieces of what comes after the first turn. */
  function LaterPieces(turn: Turn, pieces: seq<string>): seq<string> {
    Beyond(|CallText(turn.call)| + |turn.aside|, pieces)
  }

  ghost predicate GoodTurns(turns: seq<Turn>) {
    forall k :: 0 <= k < |turns| ==> WellFormed(turns[k].call) && Aside(turns[k].aside)
  }

  /** No call is cut short, and no closing tag of a call comes in one piece with its bullet. */
  ghost predicate FedApart(turns: seq<Turn>, pieces: seq<string>)
    decreases |turns|
  {
    turns != [] ==>
      && CutsWell(turns[0].call, "", pieces)
      && (|turns| > 1 ==>
            var later := LaterPieces(turns[0], pieces);
            (later != [] ==> NoClosingTag(later[0])) && FedApart(turns[1..], later))
  }

  /** All text between the tags and between the calls; that after the last one unless what is fed of it first looks like a tag. */
  function ShownOf(turns: seq<Turn>, pieces: seq<string>): string
    decreases |turns|
  {
    if turns == [] then ""
    else
      var (turn, after) := (turns[0], Beyond(|CallText(turns[0].call)|, pieces));
      if |turns| > 1 then GapsOf(turn.call.params) + turn.aside + ShownOf(turns[1..], LaterPieces(turn, pieces))
      else GapsOf(turn.call.params) + if turn.aside == "" || after == [] then "" else ShownAfter(turn.aside, after[0])
  }

  /**
   * Any number of calls, with text after each, in any pieces that cut none of
   * them short and bring no closing tag together with the bullet of its call:
   * one tool for each call, in order, and the text between them.
   */
  lemma {:induction false} CallsRecovered(turns: seq<Turn>, m: Machine, pieces: seq<string>)
    requires turns != [] && GoodTurns(turns) && NoControl(TurnsText(turns)) && m.state == TEXT && m.buffer == ""
    requires Concat(pieces) == TurnsText(turns) && FedApart(turns, pieces)
    ensures var o := FeedPieces(m, pieces);
            o.tools + FlushMachine(o.m).1 == ToolsOf(turns) && o.text == ShownOf(turns, pieces)
    decreases |turns|
  {
    hide *;
    var (call, x, rest) := (turns[0].call, turns[0].aside, TurnsText(turns[1..]));
    FirstTurn(turns, pieces);
    if |turns| == 1 {
      LastTurn(call, x, m, pieces);
      OneTurn(turns, pieces);
    } else {
      var later := LaterPieces(turns[0], pieces);
      AfterNothing(call, m, "");
      NothingFed(pieces);
      NextBegins(turns);
      LaterIs(turns[0], pieces);
      var released := FeedToBullet(call, "", m, "", x, rest, pieces);
      RestNoControl(CallText(call), x, rest);
      LaterText(turns, pieces);
      EndedIs(call);
      CallsRecovered(turns[1..], Ended(call), later);
      MoreTurns(turns, pieces, released, FeedPieces(Ended(call), later));
    }
  }

  lemma NothingFed(pieces: seq<string>)
    ensures "" + Concat(pieces) == Concat(pieces) && |""| == 0
  {
  }

  lemma FirstTurn(turns: seq<Turn>, pieces: seq<string>)
    requires turns != [] && GoodTurns(turns) && FedApart(turns, pieces)
    ensures WellFormed(turns[0].call) && Aside(turns[0].aside) && CutsWell(turns[0].call, "", pieces) && GoodTurns(turns[1..])
    ensures TurnsText(turns) == CallText(turns[0].call) + (turns[0].aside + TurnsText(turns[1..]))
    ensures |turns| == 1 ==> TurnsText(turns) == CallText(turns[0].call) + turns[0].aside
    ensures |turns| > 1 ==>
              var later := LaterPieces(turns[0], pieces);
              (later != [] ==> NoClosingTag(later[0])) && FedApart(turns[1..], later)
  {
    hide CallText, CutsWell, WellFormed, Aside, NoClosingTag;
    if |turns| == 1 {
      assert TurnsText(turns[1..]) == "" && turns[0].aside + "" == turns[0].aside;
    }
  }

  lemma LaterIs(turn: Turn, pieces: seq<string>)
    ensures LaterPieces(turn, pieces) == Beyond(|CallText(turn.call)| + |turn.aside| - |""|, pieces)
  {
  }

  lemma NextBegins(turns: seq<Turn>)
    requires |turns| > 1
    ensures BeginsCall(TurnsText(turns[1..]))
  {
    hide ParamsText;
    assert CallText(turns[1..][0].call)[0] == Header(turns[1..][0].call)[0] == BULLET;
  }

  lemma RestNoControl(whole: string, x: string, rest: string)
    requires NoControl(whole + (x + rest))
    ensures NoControl(rest)
  {
    hide *;
    assert whole + x + rest + "" == whole + (x + rest);
    NoControlInPart(whole + x, rest, "");
  }

  lemma LaterText(turns: seq<Turn>, pieces: seq<string>)
    requires |turns| > 1 && Concat(pieces) == TurnsText(turns)
    ensures Concat(LaterPieces(turns[0], pieces)) == TurnsText(turns[1..])
  {
    hide CallText, Concat, Beyond;
    var (whole, x, rest) := (CallText(turns[0].call), turns[0].aside, TurnsText(turns[1..]));
    assert Concat(pieces) == whole + (x + rest);
    hide TurnsText;
    RestOf(whole, x, rest);
    BeyondIsRest(|whole| + |x|, pieces);
  }

  lemma RestOf(whole: string, x: string, rest: string)
    ensures |whole + (x + rest)| >= |whole| + |x| && (whole + (x + rest))[|whole| + |x|..] == rest
  {
  }

  lemma MoreTurns(turns: seq<Turn>, pieces: seq<string>, released: string, o: Outcome)
    requires |turns| > 1 && released == GapsOf(turns[0].call.params) + turns[0].aside
    requires o.tools + FlushMachine(o.m).1 == ToolsOf(turns[1..]) && o.text == ShownOf(turns[1..], LaterPieces(turns[0], pieces))
    ensures var whole := Before(released, [ToolOf(turns[0].call)], o);
            whole.tools + FlushMachine(whole.m).1 == ToolsOf(turns) && whole.text == ShownOf(turns, pieces)
  {
    hide FlushMachine, GapsOf, ToolOf, LaterPieces;
    var tool := ToolOf(turns[0].call);
    assert [tool] + o.tools + FlushMachine(o.m).1 == [tool] + (o.tools + FlushMachine(o.m).1);
    assert ToolsOf(turns) == [tool] + ToolsOf(turns[1..]);
  }

  lemma OneTurn(turns: seq<Turn>, pieces: seq<string>)
    requires |turns| == 1
    ensures ToolsOf(turns) == [ToolOf(turns[0].call)]
    ensures var after := Beyond(|CallText(turns[0].call)|, pieces);
            ShownOf(turns, pieces) ==
              GapsOf(turns[0].call.params) + if turns[0].aside == "" || after == [] then "" else ShownAfter(turns[0].aside, after[0])
  {
    hide GapsOf, ToolOf, CallText, Beyond, ShownAfter;
  }

  lemma LastTurn(call: Call, x: string, m: Machine, pieces: seq<string>)
    requires WellFormed(call) && Aside(x) && m.state == TEXT && m.buffer == "" && NoControl(CallText(call) + x)
    requires Concat(pieces) == CallText(call) + x && CutsWell(call, "", pieces)
    ensures var (o, after) := (FeedPieces(m, pieces), Beyond(|CallText(call)|, pieces));
            && o.tools + FlushMachine(o.m).1 == [ToolOf(call)]
            && o.text == GapsOf(call.params) + if x == "" || after == [] then "" else ShownAfter(x, after[0])
  {
    hide *;
    var o := FeedPieces(m, pieces);
    AfterNothing(call, m, "");
    NothingFed(pieces);
    assert "" + o.text == o.text;
    if x == "" {
      assert CallText(call) + "" == CallText(call) && GapsOf(call.params) + "" == GapsOf(call.params);
      FeedWell(call, "", m, "", pieces);
      CallFlushed(call, o.m, o.text);
      OneTool(ToolOf(call));
    } else {
      FeedThrough(call, "", m, "", x, pieces);
    }
  }

  // ----- A call whose first closing tag comes together with its bullet -----

  /** The call that the parser takes both for. */
  function Merged(call: Call, next: Call): Call {
    Call(call.space, call.name, call.params + next.params)
  }

  /** Neither tag of a parameter is in the header. */
  ghost predicate PlainHeader(call: Call) {
    NoClosingTag(Header(call)) && forall i :: !OccursAt(Header(call), "<parameter=", i)
  }

  /** A token does not reach over a '>'. */
  lemma NoControlJoin(a: string, b: string)
    requires NoControl(a) && NoControl(b) && a != "" && a[|a| - 1] == '>'
    ensures NoControl(a + b)
  {
    var s := a + b;
    forall i | 0 <= i <= |s| ensures ControlLen(s[i..]) == 0 {
      if i >= |a| {
        assert s[i..] == b[i - |a|..];
      } else {
        NoTokenOver(a, b, i);
      }
    }
  }

  lemma NoTokenOver(a: string, b: string, i: nat)
    requires NoControl(a) && i < |a| && a[|a| - 1] == '>'
    ensures ControlLen((a + b)[i..]) == 0
  {
    var t := (a + b)[i..];
    var n := ControlLen(t);
    if n > 0 {
      TP.ControlLenExactly(t, n);
      var body :| TP.IsToken(t[..n], body);
      hide ControlLen;
      TokenEndsOnce(t, n, body);
      assert t[|a| - 1 - i] == a[|a| - 1];
      assert n <= |a| - i;
      assert a[i..][..n] == t[..n];
      TP.ControlLenExactly(a[i..], n);
    }
  }

  lemma TokenEndsOnce(t: string, n: nat, body: string)
    requires n <= |t| && TP.IsToken(t[..n], body)
    ensures forall j :: 0 <= j < n - 1 ==> t[j] != '>'
  {
    var token := t[..n];
    assert forall j :: 0 <= j < n ==> t[j] == token[j];
    assert forall j :: 2 <= j < n - 2 ==> token[j] == body[j - 2];
  }

  lemma MergedText(call: Call, next: Call)
    ensures CallText(Merged(call, next)) == CallText(call) + ParamsText(next.params)
    ensures CallText(next) == Header(next) + ParamsText(next.params)
  {
    ParamsTextConcat(call.params, next.params);
    hide ParamsText;
    ConcatAssoc(Header(call), ParamsText(call.params), ParamsText(next.params));
  }

  lemma MergedWellFormed(call: Call, next: Call)
    requires WellFormed(call) && WellFormed(next)
    ensures WellFormed(Merged(call, next))
  {
    MergedText(call, next);
    CallEnds(call);
    hide CallText, NoControl, WellFormedParam;
    assert Header(next) + ParamsText(next.params) + "" == CallText(next);
    NoControlInPart(Header(next), ParamsText(next.params), "");
    NoControlJoin(CallText(call), ParamsText(next.params));
  }

  /** Closed parameters come off the buffer whatever follows. */
  lemma {:induction false} TakeMany(ps: seq<Param>, more: string, m: Machine)
    requires forall k :: 0 <= k < |ps| ==> WellFormedParam(ps[k])
    requires m.buffer == ParamsText(ps) + more
    ensures TakeParams(m) == Before(GapsOf(ps), [], TakeParams(m.(buffer := more, params := ParamMap(ps, m.params))))
    decreases |ps|
  {
    hide TakeParams, WellFormedParam, ParamText, Strip;
    if ps == [] {
      assert "" + more == more;
      BeforeNothing(TakeParams(m));
    } else {
      var tail := ParamsText(ps[1..]) + more;
      var next := m.(buffer := tail, params := m.params[Strip(ps[0].key) := Strip(ps[0].value)]);
      ConcatAssoc(ParamText(ps[0]), ParamsText(ps[1..]), more);
      TakeOne(ps[0], tail, m);
      TakeMany(ps[1..], more, next);
      hide ParamsText;
      assert ParamMap(ps, m.params) == ParamMap(ps[1..], next.params);
      BeforeBefore(ps[0].gap, [], GapsOf(ps[1..]), [], TakeParams(next.(buffer := more, params := ParamMap(ps, m.params))));
      NoTools();
    }
  }

  /** The header before a complete parameter is passed over and released. */
  lemma TakeOverHeader(next: Call, tail: string, m: Machine)
    requires next.params != [] && WellFormedParam(next.params[0]) && PlainHeader(next)
    requires m.buffer == Header(next) + (ParamText(next.params[0]) + tail)
    ensures var p := next.params[0];
            TakeParams(m) == Before(Header(next) + p.gap, [],
                                    TakeParams(m.(buffer := tail, params := m.params[Strip(p.key) := Strip(p.value)])))
  {
    var p := next.params[0];
    var q := Param(Header(next) + p.gap, p.key, p.value);
    JunkParam(Header(next), p, tail);
    assert HasTag(q);
    NoTagInJunk(next, p, tail);
    TakeJunk(q, tail, m);
  }

  lemma JunkParam(junk: string, p: Param, tail: string)
    ensures var q := Param(junk + p.gap, p.key, p.value);
            junk + (ParamText(p) + tail) == ParamText(q) + tail
  {
    var t := TagText(p);
    hide TagText;
    assert TagText(Param(junk + p.gap, p.key, p.value)) == t by { TagsSame(junk, p); }
    assert junk + (p.gap + t + tail) == junk + p.gap + t + tail;
  }

  lemma TagsSame(junk: string, p: Param)
    ensures TagText(Param(junk + p.gap, p.key, p.value)) == TagText(p)
  {
  }

  lemma NoTagInJunk(next: Call, p: Param, tail: string)
    requires PlainHeader(next) && AllSpace(p.gap)
    ensures var s := Header(next) + (ParamText(p) + tail);
            forall i :: 0 <= i < |Header(next)| + |p.gap| ==> !OccursAt(s, PARAM_OPEN, i)
  {
    var (h, s) := (Header(next), Header(next) + (ParamText(p) + tail));
    assert h[|h| - 1] == '>';
    assert forall k :: 0 <= k < |PARAM_OPEN| ==> PARAM_OPEN[k] != '>';
    hide Header, ParamText;
    forall i | 0 <= i < |h| + |p.gap| ensures !OccursAt(s, PARAM_OPEN, i) {
      if i + |PARAM_OPEN| <= |h| {
        OccursInFront(h, ParamText(p) + tail, PARAM_OPEN, i);
      } else if i < |h| {
        OccursChar(s, PARAM_OPEN, i, |h| - 1 - i);
      } else {
        GapThere(p, i - |h|);
        assert s[i] == ParamText(p)[i - |h|];
        OccursChar(s, PARAM_OPEN, i, 0);
      }
    }
  }

  lemma GapThere(p: Param, i: nat)
    requires i < |p.gap| && AllSpace(p.gap)
    ensures i < |ParamText(p)| && ParamText(p)[i] != '<'
  {
  }

  lemma TakeJunk(q: Param, tail: string, m: Machine)
    requires HasTag(q) && m.buffer == ParamText(q) + tail
    requires forall i :: 0 <= i < |q.gap| ==> !OccursAt(m.buffer, PARAM_OPEN, i)
    ensures TakeParams(m)
         == Before(q.gap, [], TakeParams(m.(buffer := tail, params := m.params[Strip(q.key) := Strip(q.value)])))
  {
    ClosedThere(q, tail);
    JunkSlices(q, tail);
    hide ParamText, TagText, ClosedParam, Strip, HasTag;
  }

  lemma JunkSlices(q: Param, tail: string)
    ensures var s := ParamText(q) + tail;
            && s[|q.gap|..|ParamText(q)|] == TagText(q) && s[..|q.gap|] == q.gap && s[|ParamText(q)|..] == tail
  {
    hide TagText;
    assert ParamText(q)[..|q.gap|] == q.gap && ParamText(q)[|q.gap|..] == TagText(q);
  }

  lemma ClosedThere(q: Param, tail: string)
    requires HasTag(q) && forall i :: 0 <= i < |q.gap| ==> !OccursAt(ParamText(q) + tail, PARAM_OPEN, i)
    ensures |q.gap| <= |ParamText(q)|
    ensures ClosedParam(ParamText(q) + tail) == Some(ParamMatch(|q.gap|, q.key, q.value, |ParamText(q)|))
  {
    var s := ParamText(q) + tail;
    ParamAtTag(q, tail);
    JunkSlices(q, tail);
    CloseAtEnd(PARAM_OPEN + q.key + ">" + q.value);
    assert Find(TagText(q), PARAM_CLOSE) != -1;
    assert |q.gap| <= |ParamText(q)| <= |s|;
    hide ParamText, TagText, ParamAt, Find, OccursAt, HasTag;
    SearchPasses(s, 0, |q.gap|);
  }

  lemma {:induction false} SearchPasses(s: string, from: nat, stop: nat)
    requires from <= stop <= |s| && forall i :: from <= i < stop ==> !OccursAt(s, PARAM_OPEN, i)
    ensures ParamSearch(s, from) == ParamSearch(s, stop)
    decreases stop - from
  {
    if from < stop { SearchPasses(s, from + 1, stop); }
  }

  /** The whole of the buffer: the header and the complete parameters are taken, a cut one is left. */
  lemma TakeMerged(next: Call, s: string, m: Machine) returns (n: nat, rest: string)
    requires WellFormed(next) && PlainHeader(next) && next.params != [] && s <= ParamsText(next.params)
    requires |s| >= |ParamText(next.params[0])| && m.buffer == Header(next) + s
    ensures n <= |next.params| && CutAt(next.params, n, rest) && s == ParamsText(next.params[..n]) + rest
    ensures TakeParams(m)
         == Outcome(m.(buffer := rest, params := ParamMap(next.params[..n], m.params)), Header(next) + GapsOf(next.params[..n]), [])
  {
    hide *;
    var (ps, t) := (next.params, ParamText(next.params[0]));
    var tail := s[|t|..];
    FirstParamOff(ps, s, tail);
    WellFormedParts(next);
    var m' := m.(buffer := tail, params := m.params[Strip(ps[0].key) := Strip(ps[0].value)]);
    TakeOverHeader(next, tail, m);
    var n';
    n', rest := TakeComplete(ps[1..], tail, m');
    n := n' + 1;
    CutAtNext(ps, n', rest);
    OneMoreParam(ps, n', m.params);
    ConcatAssoc(t, ParamsText(ps[1..][..n']), rest);
    ConcatAssoc(Header(next), ps[0].gap, GapsOf(ps[1..][..n']));
    BeforeTaken(Header(next) + ps[0].gap, TakeParams(m'));
  }

  lemma FirstParamOff(ps: seq<Param>, s: string, tail: string)
    requires ps != [] && s <= ParamsText(ps) && |s| >= |ParamText(ps[0])| && tail == s[|ParamText(ps[0])|..]
    ensures s == ParamText(ps[0]) + tail && tail <= ParamsText(ps[1..])
  {
    hide ParamText;
    assert s == ParamsText(ps)[..|s|];
  }

  lemma WellFormedParts(call: Call)
    requires WellFormed(call)
    ensures forall k :: 0 <= k < |call.params| ==> WellFormedParam(call.params[k])
  {
  }

  lemma CutAtNext(ps: seq<Param>, n: nat, rest: string)
    requires ps != [] && CutAt(ps[1..], n, rest)
    ensures n + 1 <= |ps| && CutAt(ps, n + 1, rest)
  {
    hide ParamText;
  }

  lemma BeforeTaken(text: string, taken: Outcome)
    ensures Before(text, [], taken) == Outcome(taken.m, text + taken.text, taken.tools)
  {
    assert [] + taken.tools == taken.tools;
  }

  lemma OneMoreParam(ps: seq<Param>, n: nat, base: map<string, string>)
    requires ps != [] && n <= |ps[1..]|
    ensures ParamsText(ps[..n + 1]) == ParamText(ps[0]) + ParamsText(ps[1..][..n])
    ensures GapsOf(ps[..n + 1]) == ps[0].gap + GapsOf(ps[1..][..n])
    ensures ParamMap(ps[..n + 1], base) == ParamMap(ps[1..][..n], base[Strip(ps[0].key) := Strip(ps[0].value)])
  {
    hide ParamText, Strip;
    assert ps[..n + 1][1..] == ps[1..][..n] && ps[..n + 1][0] == ps[0];
  }

  /** The piece with the bullet of the next call and its first closing tag. */
  lemma FeedMerging(call: Call, next: Call, s: string, m: Machine, text: string, piece: string, front: string)
    returns (n: nat, rest: string)
    requires WellFormed(call) && After(call, s, m, text) && s + piece == CallText(call) + front && |s| <= |CallText(call)|
    requires WellFormed(next) && PlainHeader(next) && next.params != [] && NoControl(CallText(call) + front)
    requires front <= CallText(next) && |front| >= |Header(next)| + |ParamText(next.params[0])| && !EndsInGap(next, front)
    ensures n <= |next.params| && CutAt(next.params, n, rest) && front == Header(next) + ParamsText(next.params[..n]) + rest
    ensures FeedMachine(m, piece).tools == [] && text + FeedMachine(m, piece).text == GapsOf(call.params) + (Header(next) + GapsOf(next.params[..n]))
    ensures FeedMachine(m, piece).m
         == Machine(PARSING_PARAMETERS, rest, Strip(call.name), ParamMap(next.params[..n], ParamMap(call.params, map[])))
  {
    var k := WhereAfter(call, s, m, text);
    hide *;
    FeedNoSentinel(call, s, m, text, piece, front);
    FeedIsDrive(m, piece);
    var m' := m.(buffer := m.buffer + piece);
    if |s| < |Header(call)| {
      WholeCall(call, s, m, text, piece, front);
      ToHeader(call, m', front);
      n, rest := DriveMerging(call, next, 0, Found(call, ParamsText(call.params) + front), front);
      NoneYet(call, text, Header(next) + GapsOf(next.params[..n]));
    } else {
      PartOfCall(call, s, m, text, piece, front, k);
      n, rest := DriveMerging(call, next, k, m', front);
      GapsSplit(call, k);
      ConcatAssoc(text, GapsOf(call.params[k..]), Header(next) + GapsOf(next.params[..n]));
    }
  }

  lemma NoneYet(call: Call, text: string, more: string)
    requires text == ""
    ensures text + (GapsOf(call.params[0..]) + more) == GapsOf(call.params) + more
  {
    assert call.params[0..] == call.params;
    hide GapsOf;
  }

  lemma ToHeader(call: Call, m: Machine, more: string)
    requires WellFormed(call) && m.state != PARSING_PARAMETERS && m.buffer == Header(call) + (ParamsText(call.params) + more)
    ensures var found := Found(call, ParamsText(call.params) + more);
            && Drive(m) == Drive(found) && found.state == PARSING_PARAMETERS && found.name == Strip(call.name)
            && found.buffer == ParamsText(call.params[0..]) + more && found.params == ParamMap(call.params[..0], map[])
  {
    var rest := ParamsText(call.params) + more;
    assert m.buffer[0] == Header(call)[0] == BULLET;
    assert call.params[..0] == [] && call.params[0..] == call.params && ParamMap([], map[]) == map[];
    FoundIs(call, rest);
    NoneBefore(m.buffer);
    assert "" + m.buffer == m.buffer;
    hide *;
    if m.state == TEXT { DriveBullet(m); }
    SkipsToHeader(call, m.(state := MATCHING_FUNCTION), "", rest);
  }

  lemma DriveMerging(call: Call, next: Call, k: nat, m: Machine, front: string) returns (n: nat, rest: string)
    requires WellFormed(call) && k <= |call.params| && m.buffer == ParamsText(call.params[k..]) + front
    requires m.state == PARSING_PARAMETERS && m.name == Strip(call.name) && m.params == ParamMap(call.params[..k], map[])
    requires WellFormed(next) && PlainHeader(next) && next.params != []
    requires front <= CallText(next) && |front| >= |Header(next)| + |ParamText(next.params[0])| && !EndsInGap(next, front)
    ensures n <= |next.params| && CutAt(next.params, n, rest) && front == Header(next) + ParamsText(next.params[..n]) + rest
    ensures Drive(m) == Outcome(Machine(PARSING_PARAMETERS, rest, Strip(call.name), ParamMap(next.params[..n], ParamMap(call.params, map[]))),
                                GapsOf(call.params[k..]) + (Header(next) + GapsOf(next.params[..n])), [])
  {
    hide *;
    AllParams(call, k);
    MapOfCall(call, k);
    var s := FrontSplits(next, front);
    TakeMany(call.params[k..], front, m);
    var m' := m.(buffer := front, params := ParamMap(call.params, map[]));
    n, rest := TakeMerged(next, s, m');
    OverAtGap(next, front, s, n, rest);
    DriveWaits(m, rest, ParamMap(next.params[..n], ParamMap(call.params, map[])),
               GapsOf(call.params[k..]), Header(next) + GapsOf(next.params[..n]), TakeParams(m'));
    ConcatAssoc(Header(next), ParamsText(next.params[..n]), rest);
  }

  lemma MapOfCall(call: Call, k: nat)
    requires k <= |call.params|
    ensures ParamMap(call.params[k..], ParamMap(call.params[..k], map[])) == ParamMap(call.params, map[])
  {
    hide ParamMap;
    assert call.params[..k] + call.params[k..] == call.params;
    ParamMapConcat(call.params[..k], call.params[k..], map[]);
  }

  lemma FrontSplits(next: Call, front: string) returns (s: string)
    requires front <= CallText(next) && next.params != [] && |front| >= |Header(next)| + |ParamText(next.params[0])|
    ensures front == Header(next) + s && s <= ParamsText(next.params) && |s| >= |ParamText(next.params[0])|
  {
    hide Header, ParamsText, ParamText;
    s := front[|Header(next)|..];
    assert front == CallText(next)[..|front|];
  }

  /** What is left ends the call only if it is white space alone. */
  lemma OverAtGap(next: Call, front: string, s: string, n: nat, rest: string)
    requires WellFormed(next) && n <= |next.params| && CutAt(next.params, n, rest)
    requires s == ParamsText(next.params[..n]) + rest && front == Header(next) + s
    ensures CallIsOver(rest) ==> EndsInGap(next, front)
  {
    CutWaits(next.params, n, rest);
    hide ParamsText, Header, WellFormedParam, CallIsOver;
    assert |front| == |Header(next)| + |ParamsText(next.params[..n])| + |rest|;
    assert OnlyGap(next.params, n, rest) ==> EndsInGapOf(next, front, n);
  }

  lemma DriveWaits(m: Machine, rest: string, params: map<string, string>, gaps: string, more: string, o: Outcome)
    requires m.state == PARSING_PARAMETERS && TakeParams(m) == Before(gaps, [], o) && !CallIsOver(rest)
    requires o.text == more && o.tools == [] && o.m == Machine(m.state, rest, m.name, params)
    ensures Drive(m) == Outcome(Machine(PARSING_PARAMETERS, rest, m.name, params), gaps + more, [])
  {
    hide TakeParams, CallIsOver;
  }

  /** What has been fed of the two as the parser takes it: without the header between them. */
  function FedMerged(call: Call, next: Call, n: nat, rest: string): string
    requires n <= |next.params|
  {
    CallText(call) + (ParamsText(next.params[..n]) + rest)
  }

  lemma MergedFront(call: Call, next: Call, n: nat)
    requires n <= |next.params|
    ensures var all := Merged(call, next).params[..|call.params| + n];
            && all == call.params + next.params[..n]
            && Header(call) + ParamsText(all) == CallText(call) + ParamsText(next.params[..n])
            && ParamMap(all, map[]) == ParamMap(next.params[..n], ParamMap(call.params, map[]))
            && GapsOf(all) == GapsOf(call.params) + GapsOf(next.params[..n])
  {
    var all := Merged(call, next).params[..|call.params| + n];
    assert all == call.params + next.params[..n];
    hide ParamsText, ParamMap, GapsOf, Header;
    ParamsTextConcat(call.params, next.params[..n]);
    ParamMapConcat(call.params, next.params[..n], map[]);
    GapsConcat(call.params, next.params[..n]);
    ConcatAssoc(Header(call), ParamsText(call.params), ParamsText(next.params[..n]));
  }

  /** The parser stands as if it had been fed one call with the parameters of both. */
  lemma StandsMerged(call: Call, next: Call, n: nat, rest: string)
    requires n <= |next.params| && CutAt(next.params, n, rest)
    ensures var m := Machine(PARSING_PARAMETERS, rest, Strip(call.name), ParamMap(next.params[..n], ParamMap(call.params, map[])));
            After(Merged(call, next), FedMerged(call, next, n, rest), m, GapsOf(call.params) + GapsOf(next.params[..n]))
  {
    var (whole, s) := (Merged(call, next), FedMerged(call, next, n, rest));
    var m := Machine(PARSING_PARAMETERS, rest, Strip(call.name), ParamMap(next.params[..n], ParamMap(call.params, map[])));
    MergedFront(call, next, n);
    SameCut(call, next, n, rest);
    assert Header(whole) == Header(call);
    assert |s| >= |Header(call)| > 0;
    hide ParamsText, ParamMap, GapsOf, Header, CutAt, Strip;
    ConcatAssoc(CallText(call), ParamsText(next.params[..n]), rest);
    assert CompletedTo(whole, s, m, |call.params| + n, GapsOf(call.params) + GapsOf(next.params[..n]));
  }

  lemma SameCut(call: Call, next: Call, n: nat, rest: string)
    requires n <= |next.params| && CutAt(next.params, n, rest)
    ensures CutAt(Merged(call, next).params, |call.params| + n, rest)
  {
    hide ParamText;
    assert n < |next.params| ==> Merged(call, next).params[|call.params| + n] == next.params[n];
  }

  /** White space alone is left of the two where it is left of the second. */
  lemma SameGaps(call: Call, next: Call, n: nat, rest: string, x: string)
    requires n <= |next.params| && n > 0 && EndsInGap(Merged(call, next), FedMerged(call, next, n, rest) + x)
    ensures EndsInGap(next, Header(next) + ParamsText(next.params[..n]) + rest + x)
  {
    hide ParamsText, Header, CallText, FedMerged;
    var (whole, s) := (Merged(call, next), FedMerged(call, next, n, rest) + x);
    var k: nat :| k < |whole.params| && EndsInGapOf(whole, s, k);
    if k < |call.params| {
      FedLength(call, next, n, rest);
      NotInFirst(call, next, k);
    } else {
      SameGap(call, next, n, rest, x, k - |call.params|);
    }
  }

  lemma FedLength(call: Call, next: Call, n: nat, rest: string)
    requires n <= |next.params|
    ensures |FedMerged(call, next, n, rest)| == |CallText(call)| + |ParamsText(next.params[..n])| + |rest|
  {
  }

  lemma SameGap(call: Call, next: Call, n: nat, rest: string, x: string, i: nat)
    requires n <= |next.params| && i < |next.params|
    requires EndsInGapOf(Merged(call, next), FedMerged(call, next, n, rest) + x, |call.params| + i)
    ensures EndsInGapOf(next, Header(next) + ParamsText(next.params[..n]) + rest + x, i)
  {
    FedLength(call, next, n, rest);
    MergedLength(call, next, i);
    hide ParamsText, Header, CallText, FedMerged;
    assert Merged(call, next).params[|call.params| + i] == next.params[i];
  }

  lemma NotInFirst(call: Call, next: Call, k: nat)
    requires k < |call.params|
    ensures var whole := Merged(call, next);
            |Header(whole)| + |ParamsText(whole.params[..k])| + |whole.params[k].gap| < |CallText(call)|
  {
    var whole := Merged(call, next);
    assert whole.params[..k] == call.params[..k] && whole.params[k] == call.params[k];
    SameHeader(call, next);
    GapFits(call.params[k]);
    hide ParamsText, Header, CallText, ParamText;
    LongEnough(call, k);
  }

  lemma MergedLength(call: Call, next: Call, i: nat)
    requires i <= |next.params|
    ensures |Header(Merged(call, next))| + |ParamsText(Merged(call, next).params[..|call.params| + i])|
         == |CallText(call)| + |ParamsText(next.params[..i])|
  {
    SameHeader(call, next);
    hide ParamsText, Header, CallText;
    MergedFront(call, next, i);
    var all := Merged(call, next).params[..|call.params| + i];
    assert |Header(call) + ParamsText(all)| == |Header(call)| + |ParamsText(all)|;
  }

  lemma SameHeader(call: Call, next: Call)
    ensures Header(Merged(call, next)) == Header(call)
  {
  }

  lemma GapFits(p: Param)
    ensures |ParamText(p)| > |p.gap|
  {
  }

  lemma CutsMerged(call: Call, next: Call, n: nat, rest: string, pieces: seq<string>)
    requires 0 < n <= |next.params| && CutsWell(next, Header(next) + ParamsText(next.params[..n]) + rest, pieces)
    ensures CutsWell(Merged(call, next), FedMerged(call, next, n, rest), pieces)
  {
    hide EndsInGap, ParamsText, Header;
    forall k | 0 <= k <= |pieces|
      ensures !EndsInGap(Merged(call, next), FedMerged(call, next, n, rest) + Concat(pieces[..k]))
    {
      if EndsInGap(Merged(call, next), FedMerged(call, next, n, rest) + Concat(pieces[..k])) {
        SameGaps(call, next, n, rest, Concat(pieces[..k]));
      }
    }
  }

  /** All that follows goes to the merged call. */
  lemma RestMerged(call: Call, next: Call, n: nat, rest: string, pieces: seq<string>)
    requires WellFormed(call) && WellFormed(next) && 0 < n <= |next.params| && CutAt(next.params, n, rest)
    requires var fed := Header(next) + ParamsText(next.params[..n]) + rest;
             fed + Concat(pieces) == CallText(next) && CutsWell(next, fed, pieces)
    ensures var m := Machine(PARSING_PARAMETERS, rest, Strip(call.name), ParamMap(next.params[..n], ParamMap(call.params, map[])));
            var o := FeedPieces(m, pieces);
            && o.tools == [] && FlushMachine(o.m).1 == [ToolOf(Merged(call, next))]
            && GapsOf(next.params[..n]) + o.text == GapsOf(next.params)
  {
    hide *;
    var m := Machine(PARSING_PARAMETERS, rest, Strip(call.name), ParamMap(next.params[..n], ParamMap(call.params, map[])));
    var o := FeedPieces(m, pieces);
    var (whole, s) := (Merged(call, next), FedMerged(call, next, n, rest));
    MergedWellFormed(call, next);
    StandsMerged(call, next, n, rest);
    CutsMerged(call, next, n, rest, pieces);
    MergedRest(call, next, n, rest, Concat(pieces));
    FeedWell(whole, s, m, GapsOf(call.params) + GapsOf(next.params[..n]), pieces);
    CallFlushed(whole, o.m, GapsOf(call.params) + GapsOf(next.params[..n]) + o.text);
    MergedGaps(call, next);
    Cancel(GapsOf(call.params), GapsOf(next.params[..n]), o.text, GapsOf(next.params));
  }

  lemma Cancel(a: string, b: string, c: string, d: string)
    requires a + b + c == a + d
    ensures b + c == d
  {
    assert (a + b + c)[|a|..] == b + c && (a + d)[|a|..] == d;
  }

  lemma MergedGaps(call: Call, next: Call)
    ensures GapsOf(Merged(call, next).params) == GapsOf(call.params) + GapsOf(next.params)
  {
    hide GapsOf;
    GapsConcat(call.params, next.params);
  }

  lemma MergedRest(call: Call, next: Call, n: nat, rest: string, later: string)
    requires n <= |next.params| && Header(next) + ParamsText(next.params[..n]) + rest + later == CallText(next)
    ensures FedMerged(call, next, n, rest) + later == CallText(Merged(call, next))
  {
    MergedText(call, next);
    hide Header, ParamsText;
    var (h, a, whole) := (Header(next), ParamsText(next.params[..n]), ParamsText(next.params));
    assert (h + a + rest + later)[|h|..] == a + rest + later && (h + whole)[|h|..] == whole;
    assert CallText(call) + (a + rest) + later == CallText(call) + (a + rest + later);
  }

  /** As long as only the first call has been fed. */
  lemma {:induction false} FeedToNext(call: Call, next: Call, s: string, m: Machine, text: string, pieces: seq<string>)
    requires WellFormed(call) && After(call, s, m, text) && WellFormed(next) && PlainHeader(next) && next.params != []
    requires s + Concat(pieces) == CallText(call) + CallText(next) && |s| <= |CallText(call)| && CutsWell(call, s, pieces)
    requires NoControl(CallText(call) + CallText(next))
    requires var later := Beyond(|CallText(call)| - |s|, pieces);
             CutsWell(next, "", later) && later != [] && |later[0]| >= |Header(next)| + |ParamText(next.params[0])|
    ensures var o := FeedPieces(m, pieces);
            && o.tools == [] && FlushMachine(o.m).1 == [ToolOf(Merged(call, next))]
            && text + o.text == GapsOf(call.params) + (Header(next) + GapsOf(next.params))
    decreases |pieces|
  {
    hide *;
    CallNotEmpty(next);
    SomePieces(CallText(call), s, CallText(next), pieces);
    CutsWellNext(call, s, pieces);
    BeyondNext(|CallText(call)| - |s|, pieces);
    FeedFirst(m, pieces[0], pieces[1..]);
    var (p, t, o) := (pieces[0], s + pieces[0], FeedMachine(m, pieces[0]));
    var later := Concat(pieces[1..]);
    if |t| <= |CallText(call)| {
      PrefixOf(t, later, CallText(call), CallText(next));
      NotAtStart(call, t, pieces[1..]);
      FeedPrefix(call, s, m, text, p);
      FedWell(call, t, o, text);
      FeedToNext(call, next, t, o.m, text + o.text, pieces[1..]);
      FedBefore(text, o, FeedPieces(o.m, pieces[1..]));
    } else {
      var front := t[|CallText(call)|..];
      SplitMore(CallText(call), CallText(next), t, later, front);
      PieceBeyond(s, p, |CallText(call)|);
      MergeAt(call, next, s, m, text, p, front, pieces[1..]);
    }
  }

  lemma CallNotEmpty(call: Call)
    ensures CallText(call) != ""
  {
    CallEnds(call);
  }

  lemma MergeAt(call: Call, next: Call, s: string, m: Machine, text: string, p: string, front: string, pieces: seq<string>)
    requires WellFormed(call) && After(call, s, m, text) && WellFormed(next) && PlainHeader(next) && next.params != []
    requires s + p == CallText(call) + front && |s| <= |CallText(call)| && front + Concat(pieces) == CallText(next)
    requires NoControl(CallText(call) + CallText(next)) && CutsWell(next, "", [front] + pieces)
    requires |front| >= |Header(next)| + |ParamText(next.params[0])|
    ensures var o := Before(FeedMachine(m, p).text, FeedMachine(m, p).tools, FeedPieces(FeedMachine(m, p).m, pieces));
            && o.tools == [] && FlushMachine(o.m).1 == [ToolOf(Merged(call, next))]
            && text + o.text == GapsOf(call.params) + (Header(next) + GapsOf(next.params))
  {
    hide *;
    FrontNoControlOf(CallText(call), front, Concat(pieces), CallText(next));
    FrontIsPrefix(front, Concat(pieces), CallText(next));
    TailIs(front, pieces);
    CutsWellNext(next, "", [front] + pieces);
    assert "" + front == front;
    NotAtStart(next, front, pieces);
    var n, rest := FeedMerging(call, next, s, m, text, p, front);
    AtLeastOne(next, n, rest, front);
    RestMerged(call, next, n, rest, pieces);
    var (d, o) := (FeedMachine(m, p), FeedPieces(FeedMachine(m, p).m, pieces));
    FedBefore(text, d, o);
    JoinMerged(GapsOf(call.params), Header(next), GapsOf(next.params[..n]), o.text, GapsOf(next.params));
    BeforeHas(d.text, d.tools, o);
    assert d.tools + o.tools == [];
  }

  lemma FrontIsPrefix(front: string, later: string, whole: string)
    requires front + later == whole
    ensures front <= whole
  {
  }

  lemma TailIs(front: string, pieces: seq<string>)
    ensures [front] + pieces != [] && ([front] + pieces)[0] == front && ([front] + pieces)[1..] == pieces
  {
  }

  lemma AtLeastOne(next: Call, n: nat, rest: string, front: string)
    requires next.params != [] && n <= |next.params| && CutAt(next.params, n, rest)
    requires front == Header(next) + ParamsText(next.params[..n]) + rest
    requires |front| >= |Header(next)| + |ParamText(next.params[0])|
    ensures n > 0
  {
    assert ParamsText(next.params[..n]) == (if n == 0 then "" else ParamsText(next.params[..n]));
    hide ParamsText, ParamText, Header;
  }

  lemma JoinMerged(a: string, h: string, b: string, c: string, d: string)
    requires b + c == d
    ensures a + (h + b) + c == a + (h + d)
  {
    assert a + (h + b) + c == a + (h + (b + c));
  }

  /**
   * Two calls in a row, in pieces that cut neither short. If the first closing
   * tag of the second comes in one piece with its bullet, the parser takes
   * both for one call: the parameters of the second go to the first,
   * overwriting those with the same keys, and the header between is shown.
   */
  lemma NextCallMerged(call: Call, next: Call, pieces: seq<string>)
    requires WellFormed(call) && WellFormed(next) && PlainHeader(next) && next.params != []
    requires Concat(pieces) == CallText(call) + CallText(next) && NoControl(CallText(call) + CallText(next))
    requires var later := Beyond(|CallText(call)|, pieces);
             && CutsWell(call, "", pieces) && CutsWell(next, "", later)
             && later != [] && |later[0]| >= |Header(next)| + |ParamText(next.params[0])|
    ensures var o := FeedPieces(START, pieces);
            && o.tools + FlushMachine(o.m).1 == [ToolUse(Strip(call.name), ParamMap(next.params, ToolOf(call).input))]
            && o.text == GapsOf(call.params) + (Header(next) + GapsOf(next.params))
  {
    hide *;
    var o := FeedPieces(START, pieces);
    AfterNothing(call, START, "");
    StartIs();
    NothingFed(pieces);
    assert "" + o.text == o.text;
    FeedToNext(call, next, "", START, "", pieces);
    MergedTool(call, next);
    OneTool(ToolOf(Merged(call, next)));
  }

  lemma StartIs()
    ensures START.state == TEXT && START.buffer == ""
  {
  }

  lemma MergedTool(call: Call, next: Call)
    ensures ToolOf(Merged(call, next)) == ToolUse(Strip(call.name), ParamMap(next.params, ToolOf(call).input))
  {
    MergedFront(call, next, |next.params|);
    assert next.params[..|next.params|] == next.params;
    assert Merged(call, next).params[..|call.params| + |next.params|] == Merged(call, next).params;
    hide ParamMap, Strip;
  }

  /** So both are recovered exactly if the first closing tag of the second comes in a later piece than its bullet. */
  lemma TwoCallsExactly(call: Call, next: Call, pieces: seq<string>)
    requires WellFormed(call) && WellFormed(next) && PlainHeader(next) && next.params != []
    requires Concat(pieces) == CallText(call) + CallText(next) && NoControl(CallText(call) + CallText(next))
    requires CutsWell(call, "", pieces) && CutsWell(next, "", Beyond(|CallText(call)|, pieces))
    ensures var (o, later) := (FeedPieces(START, pieces), Beyond(|CallText(call)|, pieces));
            && later != []
            && (o.tools + FlushMachine(o.m).1 == [ToolOf(call), ToolOf(next)] <==>
                  |later[0]| < |Header(next)| + |ParamText(next.params[0])|)
  {
    hide *;
    var (o, later) := (FeedPieces(START, pieces), Beyond(|CallText(call)|, pieces));
    NextIsLater(call, next, pieces);
    if |later[0]| >= |Header(next)| + |ParamText(next.params[0])| {
      NextCallMerged(call, next, pieces);
      OneIsNotTwo(ToolUse(Strip(call.name), ParamMap(next.params, ToolOf(call).input)), ToolOf(call), ToolOf(next));
    } else {
      NotYetClosed(next, later[0]);
      TwoTurns(call, next, pieces);
      StartIs();
      CallsRecovered([Turn(call, ""), Turn(next, "")], START, pieces);
    }
  }

  lemma OneIsNotTwo(a: ToolUse, b: ToolUse, c: ToolUse)
    ensures [a] != [b, c]
  {
    assert |[a]| != |[b, c]|;
  }

  lemma NextIsLater(call: Call, next: Call, pieces: seq<string>)
    requires Concat(pieces) == CallText(call) + CallText(next)
    ensures var later := Beyond(|CallText(call)|, pieces);
            later != [] && Concat(later) == CallText(next) && later[0] <= CallText(next)
  {
    CallNotEmpty(next);
    hide CallText, Beyond;
    var later := Beyond(|CallText(call)|, pieces);
    BeyondIsRest(|CallText(call)|, pieces);
    assert (CallText(call) + CallText(next))[|CallText(call)|..] == CallText(next);
    assert later != [] ==> Concat(later) == later[0] + Concat(later[1..]);
  }

  /** A cut of the header and the first parameter holds no closing tag. */
  lemma NotYetClosed(next: Call, front: string)
    requires WellFormed(next) && PlainHeader(next) && next.params != [] && front <= CallText(next)
    requires |front| < |Header(next)| + |ParamText(next.params[0])|
    ensures NoClosingTag(front)
  {
    var (h, p) := (Header(next), next.params[0]);
    assert h[|h| - 1] == '>';
    assert CallText(next) == h + (ParamText(p) + ParamsText(next.params[1..]));
    hide Header, ParamText, ParamsText, WellFormedParam, NoControl;
    var s := if |front| <= |h| then "" else front[|h|..];
    assert |front| > |h| ==> front == h + s && s <= ParamText(p);
    forall i ensures !OccursAt(front, "</parameter>", i) { ClosesNot(next, h, p, s, front, i); }
  }

  lemma ClosesNot(next: Call, h: string, p: Param, s: string, front: string, i: int)
    requires NoClosingTag(h) && h != "" && h[|h| - 1] == '>' && WellFormedParam(p)
    requires if |front| <= |h| then front <= h else front == h + s && s <= ParamText(p) && |s| < |ParamText(p)|
    ensures !OccursAt(front, "</parameter>", i)
  {
    hide ParamText, WellFormedParam;
    var w := |PARAM_CLOSE|;
    assert forall k :: 0 <= k < w - 1 ==> PARAM_CLOSE[k] != '>';
    if |front| <= |h| {
      var back := h[|front|..];
      assert front + back == h;
      if i + w <= |front| { OccursInFront(front, back, "</parameter>", i); }
    } else if i + w <= |h| {
      OccursInFront(h, s, "</parameter>", i);
    } else if i >= |h| {
      ShiftOccurs(h, s, PARAM_CLOSE, i - |h|);
      NoCloseInCut(p, s, i - |h|);
    } else {
      OccursChar(front, PARAM_CLOSE, i, |h| - 1 - i);
    }
  }

  lemma TwoTurns(call: Call, next: Call, pieces: seq<string>)
    requires WellFormed(call) && WellFormed(next)
    requires Concat(pieces) == CallText(call) + CallText(next) && NoControl(CallText(call) + CallText(next))
    requires CutsWell(call, "", pieces) && CutsWell(next, "", Beyond(|CallText(call)|, pieces))
    requires var later := Beyond(|CallText(call)|, pieces); later != [] ==> NoClosingTag(later[0])
    ensures var turns := [Turn(call, ""), Turn(next, "")];
            && GoodTurns(turns) && TurnsText(turns) == CallText(call) + CallText(next) && FedApart(turns, pieces)
            && turns != [] && ToolsOf(turns) == [ToolOf(call), ToolOf(next)]
  {
    hide WellFormed, CutsWell, NoClosingTag, CallText, Beyond, ToolOf, NoControl;
    var turns := [Turn(call, ""), Turn(next, "")];
    assert turns[1..] == [Turn(next, "")] && turns[1..][1..] == [];
    assert TurnsText([]) == "" && CallText(next) + ("" + "") == CallText(next) && "" + CallText(next) == CallText(next);
    assert TurnsText(turns[1..]) == CallText(next);
    assert Aside("");
    assert LaterPieces(turns[0], pieces) == Beyond(|CallText(call)|, pieces);
    assert FedApart(turns[1..], LaterPieces(turns[0], pieces));
  }
}
