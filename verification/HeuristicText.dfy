/**
 * What the text tool-call parser does to text that holds no call: which part
 * of it is never released (providers/common/heuristic_tool_parser.py).
 */
module HeuristicText {
  import opened Text
  import opened HeuristicParser

  // ----- Text without headers and sentinels -----

  /** No header of a call is in the text. */
  ghost predicate NoFunc(s: string) {
    forall i: nat :: FuncAt(s, i).None?
  }

  /** No finished sentinel is in the text. */
  ghost predicate NoControl(s: string) {
    forall i :: 0 <= i <= |s| ==> ControlLen(s[i..]) == 0
  }

  lemma {:induction false} NoControlNoStrip(s: string)
    requires NoControl(s)
    ensures StripControlTokens(s) == s
  {
    if s != "" {
      assert s[0..] == s;
      forall i | 0 <= i <= |s[1..]| ensures ControlLen(s[1..][i..]) == 0 {
        assert s[1..][i..] == s[i + 1..];
      }
      NoControlNoStrip(s[1..]);
    }
  }

  /** A header in a part of the text is one in the text, with the same name. */
  lemma FuncInPart(a: string, s: string, c: string, i: nat)
    requires FuncAt(s, i).Some?
    ensures FuncAt(a + s + c, |a| + i) == Some(FuncMatch(FuncAt(s, i).value.name, |a| + FuncAt(s, i).value.end))
  {
    hide *;
    var j, e := FuncHere(s, i);
    FuncMoves(a, s, c, i, j, e);
  }

  lemma FuncMoves(a: string, s: string, c: string, i: nat, j: nat, e: nat)
    requires i < j && j + |FUNC_OPEN| < e < |s| && s[i] == BULLET && OccursAt(s, FUNC_OPEN, j)
    requires SkipSpaces(s, i + 1) == j && IndexOf(s, '>', j + |FUNC_OPEN|) == e
    ensures FuncAt(a + s + c, |a| + i) == Some(FuncMatch(s[j + |FUNC_OPEN|..e], |a| + e + 1))
  {
    hide *;
    var t := a + s + c;
    PartChar(a, s, c, i);
    PartSlice(a, s, c, j + |FUNC_OPEN|, e);
    PartOccurs(a, s, c, FUNC_OPEN, j);
    SkipInPart(a, s, c, i + 1, j);
    IndexInPart(a, s, c, j + |FUNC_OPEN|, e);
    FuncThere(t, |a| + i, |a| + j, |a| + e);
  }

  lemma FuncHere(s: string, i: nat) returns (j: nat, e: nat)
    requires FuncAt(s, i).Some?
    ensures i < j && j + |FUNC_OPEN| < e < |s| && s[i] == BULLET && OccursAt(s, FUNC_OPEN, j)
    ensures SkipSpaces(s, i + 1) == j && IndexOf(s, '>', j + |FUNC_OPEN|) == e
    ensures FuncAt(s, i) == Some(FuncMatch(s[j + |FUNC_OPEN|..e], e + 1))
  {
    hide SkipSpaces, IndexOf;
    j := SkipSpaces(s, i + 1);
    e := IndexOf(s, '>', j + |FUNC_OPEN|);
  }

  lemma SkipInPart(a: string, s: string, c: string, from: nat, at: nat)
    requires from <= at < |s| && SkipSpaces(s, from) == at
    ensures SkipSpaces(a + s + c, |a| + from) == |a| + at
  {
    PartChars(a, s, c);
    assert forall k :: from <= k < at ==> IsSpace(s[k]);
    assert !IsSpace(s[at]);
    hide SkipSpaces, IsSpace;
    SkipExactly(a + s + c, |a| + from, |a| + at);
  }

  lemma IndexInPart(a: string, s: string, c: string, from: nat, at: nat)
    requires from <= at < |s| && IndexOf(s, '>', from) == at
    ensures IndexOf(a + s + c, '>', |a| + from) == |a| + at
  {
    PartChars(a, s, c);
    hide IndexOf;
    IndexExactly(a + s + c, '>', |a| + from, |a| + at);
  }

  lemma PartChars(a: string, s: string, c: string)
    ensures |a + s + c| == |a| + |s| + |c|
    ensures forall k :: |a| <= k < |a| + |s| ==> (a + s + c)[k] == s[k - |a|]
  {
  }

  lemma PartChar(a: string, s: string, c: string, i: nat)
    requires i < |s|
    ensures |a + s + c| == |a| + |s| + |c| && (a + s + c)[|a| + i] == s[i]
  {
  }

  lemma PartSlice(a: string, s: string, c: string, from: nat, end: nat)
    requires from <= end <= |s|
    ensures (a + s + c)[|a| + from..|a| + end] == s[from..end]
  {
  }

  lemma PartOccurs(a: string, s: string, c: string, p: string, i: nat)
    requires OccursAt(s, p, i)
    ensures OccursAt(a + s + c, p, |a| + i)
  {
    assert (a + s + c)[|a| + i..|a| + i + |p|] == s[i..i + |p|];
  }

  lemma FuncThere(t: string, i: nat, j: nat, e: nat)
    requires i < |t| && t[i] == BULLET && SkipSpaces(t, i + 1) == j && OccursAt(t, FUNC_OPEN, j)
    requires IndexOf(t, '>', j + |FUNC_OPEN|) == e > j + |FUNC_OPEN|
    ensures FuncAt(t, i) == Some(FuncMatch(t[j + |FUNC_OPEN|..e], e + 1))
  {
    hide SkipSpaces, IndexOf;
  }

  lemma NoFuncInPart(a: string, s: string, c: string)
    requires NoFunc(a + s + c)
    ensures NoFunc(s)
  {
    forall i: nat ensures FuncAt(s, i).None? {
      if FuncAt(s, i).Some? { FuncInPart(a, s, c, i); }
    }
  }

  lemma NoFuncNoSearch(s: string, from: nat)
    requires NoFunc(s) && from <= |s|
    ensures FuncSearch(s, from).None?
    decreases |s| - from
  {
    if from < |s| { NoFuncNoSearch(s, from + 1); }
  }

  lemma {:induction false} BodyLenExtends(s: string, c: string, i: nat)
    requires i <= |s| && i + BodyLen(s, i) < |s|
    ensures BodyLen(s + c, i) == BodyLen(s, i)
    decreases |s| - i
  {
    assert forall k :: 0 <= k < |s| ==> (s + c)[k] == s[k];
    if i < |s| && s[i] != '|' && s[i] != '>' { BodyLenExtends(s, c, i + 1); }
  }

  /** A finished sentinel stays one when more text follows. */
  lemma ControlExtends(s: string, c: string)
    requires ControlLen(s) > 0
    ensures ControlLen(s + c) > 0
  {
    var body := BodyLen(s, 2);
    BodyLenExtends(s, c, 2);
    assert (s + c)[2 + body..4 + body] == s[2 + body..4 + body];
    assert (s + c)[..2] == s[..2] == CONTROL_OPEN;
  }

  lemma NoControlInPart(a: string, s: string, c: string)
    requires NoControl(a + s + c)
    ensures NoControl(s)
  {
    var t := a + s + c;
    forall i | 0 <= i <= |s| ensures ControlLen(s[i..]) == 0 {
      assert t[|a| + i..] == s[i..] + c;
      if ControlLen(s[i..]) > 0 { ControlExtends(s[i..], c); }
    }
  }

  // ----- What is kept back -----

  /** The first bullet among the last MAX_HEADER characters, or -1. */
  function NearBullet(s: string): (i: int)
    ensures i == -1 || (0 <= i < |s| && s[i] == BULLET && |s| - i <= MAX_HEADER)
    ensures forall k :: 0 <= k < (if i == -1 then |s| else i) && |s| - k <= MAX_HEADER ==> s[k] != BULLET
  {
    IndexOf(s, BULLET, if |s| > MAX_HEADER then |s| - MAX_HEADER else 0)
  }

  function AfterLastBullet(s: string): string {
    s[RFindChar(s, BULLET) + 1..]
  }

  /** The text has an unfinished sentinel with something before it. */
  predicate HoldsBack(s: string) {
    var start := RFind(s, CONTROL_OPEN);
    start > 0 && FindFrom(s, CONTROL_CLOSE, start) == -1
  }

  function HeldBack(t: string): (r: string)
    ensures |r| <= |t| && r == t[|t| - |r|..]
  {
    if HoldsBack(t) then t[RFind(t, CONTROL_OPEN)..] else ""
  }

  /**
   * The end of the text that is kept back for more to come: from the first
   * bullet that may still begin a header, or else from a sentinel that is
   * unfinished and not at the very beginning of the text after the last bullet.
   */
  function Kept(s: string): (r: string)
    ensures |r| <= |s| && r == s[|s| - |r|..]
  {
    if NearBullet(s) != -1 then s[NearBullet(s)..] else HeldBack(AfterLastBullet(s))
  }

  function Released(s: string): string {
    s[..|s| - |Kept(s)|]
  }

  /** Nothing is kept back exactly when no bullet is near the end, and no unfinished sentinel after the last one. */
  lemma KeptExactly(s: string)
    ensures Kept(s) == "" <==>
              && (forall k :: 0 <= k < |s| && |s| - k <= 100 ==> s[k] != BULLET)
              && !HoldsBack(AfterLastBullet(s))
  {
    var near := NearBullet(s);
    KeptIs(s);
    HeldBackExactly(AfterLastBullet(s));
    hide NearBullet, HeldBack, AfterLastBullet, Kept, HoldsBack;
    assert near != -1 ==> s[near..] != "";
  }

  lemma HeldBackExactly(t: string)
    ensures HeldBack(t) == "" <==> !HoldsBack(t)
  {
    hide RFind, FindFrom;
  }

  lemma NoBulletKept(s: string)
    requires Lacks(s, BULLET)
    ensures NearBullet(s) == -1 && AfterLastBullet(s) == s
    ensures SplitSentinelTail(s) == (Released(s), Kept(s))
  {
    assert s[0..] == s;
    hide FindFrom, RFind;
    if HoldsBack(s) { assert s[..|s| - |Kept(s)|] == s[..RFind(s, CONTROL_OPEN)]; } else { assert s[..|s|] == s; }
  }

  /** Bullets that have been passed over do not come near the end again. */
  lemma SameNear(s: string, b: string, n: nat)
    requires |s| == n + |b| && forall k :: 0 <= k < |b| ==> b[k] == s[n + k]
    requires forall k :: 0 <= k < n && |s| - k <= MAX_HEADER ==> s[k] != BULLET
    ensures NearBullet(s) == if NearBullet(b) == -1 then -1 else n + NearBullet(b)
  {
    var (near, from) := (NearBullet(b), if |s| > MAX_HEADER then |s| - MAX_HEADER else 0);
    if near != -1 {
      forall k | from <= k < n + near ensures s[k] != BULLET {
        if k >= n { assert b[k - n] == s[k]; }
      }
      IndexExactly(s, BULLET, from, n + near);
    } else {
      forall k | 0 <= k < |s| && |s| - k <= MAX_HEADER ensures s[k] != BULLET {
        if k >= n { assert b[k - n] == s[k]; }
      }
    }
  }

  /** A bullet that is too far from the end is passed over, with all that is before it. */
  lemma FarBulletKept(front: string, rest: string)
    requires Lacks(front, BULLET) && |rest| >= MAX_HEADER
    ensures Kept(front + [BULLET] + rest) == Kept(rest)
    ensures Released(front + [BULLET] + rest) == front + ([BULLET] + Released(rest))
  {
    var s := front + [BULLET] + rest;
    FarKept(front, rest);
    hide Kept;
    CutAfter(front, rest, |rest| - |Kept(rest)|);
  }

  lemma CutAfter(front: string, rest: string, k: nat)
    requires k <= |rest|
    ensures (front + [BULLET] + rest)[..|front| + 1 + k] == front + ([BULLET] + rest[..k])
    ensures (front + [BULLET] + rest)[|front| + 1 + k..] == rest[k..]
  {
  }

  lemma FarKept(front: string, rest: string)
    requires |rest| >= MAX_HEADER
    ensures Kept(front + [BULLET] + rest) == Kept(rest)
  {
    var s := front + [BULLET] + rest;
    KeptIs(s);
    KeptIs(rest);
    hide *;
    FarNear(front, rest);
    FarAfter(front, rest);
    if NearBullet(rest) != -1 { CutAfter(front, rest, NearBullet(rest)); }
  }

  lemma KeptIs(s: string)
    ensures Kept(s) == if NearBullet(s) == -1 then HeldBack(AfterLastBullet(s)) else s[NearBullet(s)..]
  {
    hide NearBullet, HeldBack, AfterLastBullet;
  }

  lemma FarNear(front: string, rest: string)
    requires |rest| >= MAX_HEADER
    ensures var (s, near) := (front + [BULLET] + rest, NearBullet(rest));
            NearBullet(s) == if near == -1 then -1 else |front| + 1 + near
  {
    SameNear(front + [BULLET] + rest, rest, |front| + 1);
  }

  lemma LastExactly(s: string, c: char, at: nat)
    requires at < |s| && s[at] == c && forall j :: at < j < |s| ==> s[j] != c
    ensures RFindChar(s, c) == at
  {
    var r := RFindChar(s, c);
    assert r >= at;
  }

  lemma FarAfter(front: string, rest: string)
    ensures AfterLastBullet(front + [BULLET] + rest) == AfterLastBullet(rest)
  {
    var (s, n, last) := (front + [BULLET] + rest, |front| + 1, RFindChar(rest, BULLET));
    FarLast(front, rest);
    CutAfter(front, rest, last + 1);
    hide RFindChar;
  }

  lemma FarLast(front: string, rest: string)
    ensures RFindChar(front + [BULLET] + rest, BULLET) == |front| + 1 + RFindChar(rest, BULLET)
  {
    var (s, n, last) := (front + [BULLET] + rest, |front| + 1, RFindChar(rest, BULLET));
    FarChars(front, rest);
    assert forall j :: last < j < |rest| ==> rest[j] != BULLET;
    assert last >= 0 ==> rest[last] == BULLET;
    hide RFindChar;
    forall j | n + last < j < |s| ensures s[j] != BULLET { assert s[j] == rest[j - n]; }
    LastExactly(s, BULLET, n + last);
  }

  lemma FarChars(front: string, rest: string)
    ensures var s := front + [BULLET] + rest;
            |s| == |front| + 1 + |rest| && s[|front|] == BULLET && forall j :: |front| < j < |s| ==> s[j] == rest[j - |front| - 1]
  {
  }

  /** From a bullet that is near enough on, all is kept. */
  lemma NearBulletKept(front: string, rest: string)
    requires Lacks(front, BULLET) && |rest| < MAX_HEADER
    ensures Kept(front + [BULLET] + rest) == [BULLET] + rest && Released(front + [BULLET] + rest) == front
  {
    var s := front + [BULLET] + rest;
    NearestIs(front, rest);
    hide NearBullet;
    assert s[|front|..] == [BULLET] + rest && s[..|front|] == front;
  }

  lemma NearestIs(front: string, rest: string)
    requires Lacks(front, BULLET) && |rest| < MAX_HEADER
    ensures NearBullet(front + [BULLET] + rest) == |front|
  {
    var s := front + [BULLET] + rest;
    assert s[|front|] == BULLET && forall k :: 0 <= k < |front| ==> s[k] == front[k];
    hide IndexOf;
    IndexExactly(s, BULLET, if |s| > MAX_HEADER then |s| - MAX_HEADER else 0, |front|);
  }

  // ----- The machine -----

  /** The machine waits for a call to begin, or for its header to be completed. */
  predicate Idle(m: Machine) {
    m.state == TEXT || (m.state == MATCHING_FUNCTION && m.buffer != "" && m.buffer[0] == BULLET)
  }

  function KeptMachine(m: Machine, s: string): Machine {
    m.(state := if NearBullet(s) != -1 then MATCHING_FUNCTION else TEXT, buffer := Kept(s))
  }

  lemma CutAtBullet(s: string) returns (front: string, rest: string)
    requires BULLET in s
    ensures s == front + [BULLET] + rest && Lacks(front, BULLET)
  {
    var i := IndexOf(s, BULLET, 0);
    front, rest := s[..i], s[i + 1..];
  }

  lemma DriveToBullet(m: Machine, front: string, rest: string)
    requires m.state == TEXT && m.buffer == front + [BULLET] + rest && Lacks(front, BULLET)
    ensures Drive(m) == Before(front, [], Drive(m.(state := MATCHING_FUNCTION, buffer := [BULLET] + rest)))
  {
    var s := m.buffer;
    assert s[|front|] == BULLET && forall k :: 0 <= k < |front| ==> s[k] == front[k];
    IndexExactly(s, BULLET, 0, |front|);
    hide FuncSearch, TakeParams;
    assert s[..|front|] == front && s[|front|..] == [BULLET] + rest;
  }

  lemma DrivePassesBullet(m: Machine, rest: string)
    requires m.state == MATCHING_FUNCTION && m.buffer == [BULLET] + rest && |rest| >= MAX_HEADER
    requires FuncSearch(m.buffer, 0).None?
    ensures Drive(m) == Before([BULLET], [], Drive(m.(state := TEXT, buffer := rest)))
  {
    hide FuncSearch, TakeParams;
    assert m.buffer[..1] == [BULLET] && m.buffer[1..] == rest;
  }

  /** Without a header in sight, the machine releases all but what it keeps back, and gives no tool. */
  lemma {:induction false} DriveText(m: Machine, s: string)
    requires m.state == TEXT && m.buffer == s && NoFunc(s)
    ensures Drive(m) == Outcome(KeptMachine(m, s), Released(s), [])
    decreases |s|
  {
    if BULLET !in s {
      DriveNoBullet(m, s);
    } else {
      var front, rest := CutAtBullet(s);
      HeaderNotInPart(front, rest);
      if |rest| >= MAX_HEADER {
        DriveText(m.(buffer := rest), rest);
        hide *;
        DriveFar(m, front, rest);
      } else {
        hide *;
        DriveNear(m, front, rest);
      }
    }
  }

  lemma DriveFar(m: Machine, front: string, rest: string)
    requires m.state == TEXT && m.buffer == front + [BULLET] + rest && Lacks(front, BULLET)
    requires |rest| >= MAX_HEADER && FuncSearch([BULLET] + rest, 0).None?
    requires Drive(m.(buffer := rest)) == Outcome(KeptMachine(m.(buffer := rest), rest), Released(rest), [])
    ensures Drive(m) == Outcome(KeptMachine(m, m.buffer), Released(m.buffer), [])
  {
    hide *;
    var matching := m.(state := MATCHING_FUNCTION, buffer := [BULLET] + rest);
    DriveToBullet(m, front, rest);
    DrivePassesBullet(matching, rest);
    assert matching.(state := TEXT, buffer := rest) == m.(buffer := rest);
    FarBulletKept(front, rest);
    FarNear(front, rest);
    SameKept(m, rest, m.buffer);
    BeforeTwice(front, [BULLET], KeptMachine(m, m.buffer), Released(rest));
  }

  lemma BeforeTwice(a: string, b: string, m: Machine, text: string)
    ensures Before(a, [], Before(b, [], Outcome(m, text, []))) == Outcome(m, a + (b + text), [])
  {
    var none: seq<ToolUse> := [];
    assert none + (none + none) == none;
  }

  lemma DriveNear(m: Machine, front: string, rest: string)
    requires m.state == TEXT && m.buffer == front + [BULLET] + rest && Lacks(front, BULLET)
    requires |rest| < MAX_HEADER && FuncSearch([BULLET] + rest, 0).None?
    ensures Drive(m) == Outcome(KeptMachine(m, m.buffer), Released(m.buffer), [])
  {
    var matching := m.(state := MATCHING_FUNCTION, buffer := [BULLET] + rest);
    assert m.buffer[|front|] == BULLET && |m.buffer| - |front| <= MAX_HEADER;
    assert NearBullet(m.buffer) != -1;
    hide FuncSearch, TakeParams, Drive, Kept, Released, NearBullet, Lacks;
    DriveToBullet(m, front, rest);
    DriveNearBullet(matching);
    NearBulletKept(front, rest);
    BeforeOnce(front, matching);
  }

  lemma BeforeOnce(a: string, m: Machine)
    ensures Before(a, [], Outcome(m, "", [])) == Outcome(m, a, [])
  {
    var none: seq<ToolUse> := [];
    assert a + "" == a && none + none == none;
  }

  lemma DriveNoBullet(m: Machine, s: string)
    requires m.state == TEXT && m.buffer == s && BULLET !in s
    ensures Drive(m) == Outcome(KeptMachine(m, s), Released(s), [])
  {
    assert Lacks(s, BULLET);
    NoBulletKept(s);
    hide FuncSearch, TakeParams, SplitSentinelTail, Kept, Released, NearBullet;
  }

  lemma DriveNearBullet(m: Machine)
    requires m.state == MATCHING_FUNCTION && FuncSearch(m.buffer, 0).None? && |m.buffer| <= MAX_HEADER
    ensures Drive(m) == Outcome(m, "", [])
  {
    hide FuncSearch;
  }

  lemma HeaderNotInPart(front: string, rest: string)
    requires NoFunc(front + [BULLET] + rest)
    ensures NoFunc(rest) && FuncSearch([BULLET] + rest, 0).None?
  {
    var (bullet, s) := ([BULLET] + rest, front + [BULLET] + rest);
    assert front + bullet + "" == s && front + [BULLET] + rest + "" == s;
    NoFuncInPart(front, bullet, "");
    NoFuncInPart(front + [BULLET], rest, "");
    NoFuncNoSearch(bullet, 0);
  }

  lemma SameKept(m: Machine, rest: string, s: string)
    requires Kept(rest) == Kept(s) && (NearBullet(rest) == -1 <==> NearBullet(s) == -1)
    ensures KeptMachine(m.(buffer := rest), rest) == KeptMachine(m, s)
  {
    hide Kept, NearBullet;
  }

  lemma ReleasedKept(s: string)
    ensures Released(s) + Kept(s) == s
  {
    hide Kept;
  }

  lemma {:induction false} StripNothing(s: string)
    requires Lacks(s, '|')
    ensures StripControlTokens(s) == s
  {
    if s == "" {
    } else {
      assert CONTROL_OPEN[1] == '|' && (|s| > 1 ==> s[1] != '|');
      StripNothing(s[1..]);
    }
  }

  lemma IdleText(m: Machine)
    ensures Drive(m.(state := TEXT, buffer := "")) == Outcome(m.(state := TEXT, buffer := ""), "", [])
  {
    assert RFind("", CONTROL_OPEN) == -1;
  }

  lemma DriveBullet(m: Machine)
    requires m.state == TEXT && m.buffer != "" && m.buffer[0] == BULLET
    ensures Drive(m) == Drive(m.(state := MATCHING_FUNCTION))
  {
    hide FuncSearch, TakeParams;
    IndexExactly(m.buffer, BULLET, 0, 0);
    assert m.buffer[..0] == "" && m.buffer[0..] == m.buffer;
    BeforeNothing(Drive(m.(state := MATCHING_FUNCTION)));
  }

  lemma FlushText(m: Machine)
    requires m.state != PARSING_PARAMETERS
    ensures FlushMachine(m).1 == []
  {
  }

  /** Text with neither a bullet nor a bar passes through at once, and the machine is as before. */
  lemma PlainTextPasses(m: Machine, text: string)
    requires m.state == TEXT && m.buffer == ""
    requires Lacks(text, BULLET) && Lacks(text, '|')
    ensures FeedMachine(m, text) == Outcome(m, text, [])
  {
    assert "" + text == text;
    StripNothing(text);
    forall i ensures !OccursAt(text, CONTROL_OPEN, i) {
      assert CONTROL_OPEN[1] == '|';
      assert 0 <= i && i + 2 <= |text| ==> text[i..i + 2][1] == text[i + 1];
    }
  }

  /** Feeds the pieces one after the other. */
  function FeedPieces(m: Machine, pieces: seq<string>): Outcome
    decreases |pieces|
  {
    if pieces == [] then Outcome(m, "", [])
    else
      var o := FeedMachine(m, pieces[0]);
      Before(o.text, o.tools, FeedPieces(o.m, pieces[1..]))
  }

  /** Ordinary text in pieces passes through. */
  lemma {:induction false} FeedPlain(m: Machine, pieces: seq<string>)
    requires m.state == TEXT && m.buffer == ""
    requires Lacks(Concat(pieces), BULLET) && Lacks(Concat(pieces), '|')
    ensures FeedPieces(m, pieces) == Outcome(m, Concat(pieces), [])
    decreases |pieces|
  {
    hide FeedMachine;
    if pieces != [] {
      var all, rest := Concat(pieces), Concat(pieces[1..]);
      assert forall i :: 0 <= i < |pieces[0]| ==> all[i] == pieces[0][i];
      assert forall i :: 0 <= i < |rest| ==> all[|pieces[0]| + i] == rest[i];
      PlainTextPasses(m, pieces[0]);
      FeedPlain(m, pieces[1..]);
    }
  }

  lemma FeedFirst(m: Machine, piece: string, later: seq<string>)
    ensures var d := FeedMachine(m, piece);
            FeedPieces(m, [piece] + later) == Before(d.text, d.tools, FeedPieces(d.m, later))
  {
    hide FeedMachine;
    assert ([piece] + later)[1..] == later;
  }

  /** One feed: whatever is not kept back is released. */
  lemma FeedText(m: Machine, piece: string)
    requires Idle(m) && NoFunc(m.buffer + piece) && NoControl(m.buffer + piece)
    ensures var s := m.buffer + piece;
            FeedMachine(m, piece) == Outcome(KeptMachine(m, s), Released(s), []) && Idle(KeptMachine(m, s))
  {
    var s := m.buffer + piece;
    if m.state == MATCHING_FUNCTION {
      assert s != "" && s[0] == m.buffer[0];
      DriveBullet(m.(buffer := s, state := TEXT));
    }
    hide *;
    NoControlNoStrip(s);
    FeedIsDrive(m, piece);
    KeptIdle(m, s);
    DriveText(m.(buffer := s, state := TEXT), s);
    SameKeptAgain(m, s);
  }

  lemma FeedIsDrive(m: Machine, piece: string)
    requires StripControlTokens(m.buffer + piece) == m.buffer + piece
    ensures FeedMachine(m, piece) == Drive(m.(buffer := m.buffer + piece))
  {
    hide Drive, StripControlTokens;
  }

  lemma SameKeptAgain(m: Machine, s: string)
    ensures KeptMachine(m.(buffer := s, state := TEXT), s) == KeptMachine(m, s)
  {
    hide Kept, NearBullet;
  }

  lemma KeptIdle(m: Machine, s: string)
    ensures Idle(KeptMachine(m, s))
  {
  }

  // ----- The whole text, in pieces -----

  /** What is kept back after the pieces, the first of which comes on top of the carried text. */
  function Carried(carried: string, pieces: seq<string>): string
    decreases |pieces|
  {
    if pieces == [] then carried else Carried(Kept(carried + pieces[0]), pieces[1..])
  }

  lemma {:induction false} FeedAllText(m: Machine, before: string, pieces: seq<string>)
    requires Idle(m) && NoFunc(before + m.buffer + Concat(pieces)) && NoControl(before + m.buffer + Concat(pieces))
    ensures var o := FeedPieces(m, pieces);
            && o.tools == [] && o.text + o.m.buffer == m.buffer + Concat(pieces)
            && o.m.buffer == Carried(m.buffer, pieces) && Idle(o.m)
    decreases |pieces|
  {
    hide FeedMachine, NoFunc, NoControl, Kept, Released, NearBullet, Idle;
    if pieces == [] {
      assert "" + m.buffer == m.buffer + "";
    } else {
      var (s, rest) := (m.buffer + pieces[0], Concat(pieces[1..]));
      var o := FeedMachine(m, pieces[0]);
      assert before + m.buffer + Concat(pieces) == before + s + rest;
      NoFuncInPart(before, s, rest);
      NoControlInPart(before, s, rest);
      FeedText(m, pieces[0]);
      ReleasedKept(s);
      assert before + Released(s) + Kept(s) + rest == before + s + rest;
      FeedAllText(o.m, before + Released(s), pieces[1..]);
      JoinFeeds(m, pieces, s, rest);
    }
  }

  lemma JoinFeeds(m: Machine, pieces: seq<string>, s: string, rest: string)
    requires pieces != [] && s == m.buffer + pieces[0] && rest == Concat(pieces[1..])
    requires FeedMachine(m, pieces[0]) == Outcome(KeptMachine(m, s), Released(s), []) && Released(s) + Kept(s) == s
    requires var o := FeedPieces(KeptMachine(m, s), pieces[1..]);
             o.tools == [] && o.text + o.m.buffer == Kept(s) + rest
    ensures var o := FeedPieces(m, pieces);
            o.tools == [] && o.text + o.m.buffer == m.buffer + Concat(pieces)
  {
    CarriedNext("", pieces);
    hide *;
    var o := FeedPieces(KeptMachine(m, s), pieces[1..]);
    assert pieces == [pieces[0]] + pieces[1..];
    FeedFirst(m, pieces[0], pieces[1..]);
    JoinFed(Released(s), o, Kept(s), s, rest);
    ConcatAssoc(m.buffer, pieces[0], rest);
  }

  lemma JoinFed(released: string, o: Outcome, kept: string, s: string, rest: string)
    requires released + kept == s && o.text + o.m.buffer == kept + rest && o.tools == []
    ensures var whole := Before(released, [], o);
            whole.tools == [] && whole.text + whole.m.buffer == s + rest
  {
    assert released + o.text + o.m.buffer == released + (o.text + o.m.buffer);
    assert released + (kept + rest) == released + kept + rest;
  }

  /**
   * Text without a call, in any pieces: no tool comes out, and all text is
   * released but for what is kept back after the last piece. No flush releases
   * that, so text is lost exactly when something is kept back then.
   */
  lemma {:induction false} TextLostExactly(pieces: seq<string>)
    requires NoFunc(Concat(pieces)) && NoControl(Concat(pieces))
    ensures var (o, text) := (FeedPieces(START, pieces), Concat(pieces));
            && o.tools == [] && FlushMachine(o.m).1 == [] && o.text + Carried("", pieces) == text
            && (o.text == text <==> Carried("", pieces) == "")
  {
    var o := FeedPieces(START, pieces);
    assert "" + "" + Concat(pieces) == Concat(pieces) && "" + Concat(pieces) == Concat(pieces);
    hide FeedPieces, Concat, NoFunc, NoControl;
    FeedAllText(START, "", pieces);
    FlushText(o.m);
    hide *;
    if o.text == Concat(pieces) { assert |Carried("", pieces)| == 0; }
    if Carried("", pieces) == "" { assert o.text + "" == o.text; }
  }

  /** What has been released has no bullet near the end of the text so far. */
  lemma {:induction false} CarriedFar(s: string, before: string, carried: string, pieces: seq<string>) returns (front: string)
    requires FarBullets(before, carried) && s == before + (carried + Concat(pieces))
    ensures s == front + Carried(carried, pieces) && FarBullets(front, Carried(carried, pieces))
    decreases |pieces|
  {
    hide FarBullets, Kept;
    if pieces == [] {
      front := before;
      assert carried + "" == carried;
    } else {
      var fed := carried + pieces[0];
      KeptFar(before, carried, pieces[0]);
      ReleasedKept(fed);
      JoinCarried(before, carried, pieces[0], Released(fed), Kept(fed), Concat(pieces[1..]));
      hide Released;
      front := CarriedFar(s, before + Released(fed), Kept(fed), pieces[1..]);
    }
  }

  lemma KeptIsTail(pieces: seq<string>)
    ensures var (s, kept) := (Concat(pieces), Carried("", pieces));
            var n := |s| - |kept|;
            n >= 0 && s[n..] == kept && FarBullets(s[..n], s[n..])
  {
    var s := Concat(pieces);
    assert FarBullets("", "");
    hide *;
    EmptyFronts(s);
    var front := CarriedFar(s, "", "", pieces);
    CutIn(s, front, Carried("", pieces));
  }

  lemma EmptyFronts(s: string)
    ensures "" + ("" + s) == s
  {
  }

  lemma CutIn(s: string, front: string, kept: string)
    requires s == front + kept
    ensures |s| - |kept| == |front| && s[|front|..] == kept && s[..|front|] == front
  {
  }

  /** No bullet in front is among the last MAX_HEADER characters of the whole. */
  ghost predicate FarBullets(front: string, rest: string) {
    forall k :: 0 <= k < |front| && |front| + |rest| - k <= MAX_HEADER ==> front[k] != BULLET
  }

  lemma KeptFar(before: string, carried: string, piece: string)
    requires FarBullets(before, carried)
    ensures var s := carried + piece;
            FarBullets(before + Released(s), Kept(s))
  {
    var s := carried + piece;
    var (front, n) := (before + Released(s), |Kept(s)|);
    ReleasedFar(s);
    hide Kept;
    forall k | 0 <= k < |front| && |front| + n - k <= MAX_HEADER ensures front[k] != BULLET {
      assert front[k] == if k < |before| then before[k] else Released(s)[k - |before|];
    }
  }

  lemma ReleasedFar(s: string)
    ensures forall k :: 0 <= k < |Released(s)| && |s| - k <= MAX_HEADER ==> Released(s)[k] != BULLET
    ensures |Released(s)| == |s| - |Kept(s)|
  {
    hide NearBullet, HeldBack;
  }

  lemma JoinCarried(before: string, carried: string, piece: string, released: string, kept: string, rest: string)
    requires released + kept == carried + piece
    ensures before + (carried + (piece + rest)) == (before + released) + (kept + rest)
  {
    assert carried + (piece + rest) == released + (kept + rest) by { assert carried + (piece + rest) == carried + piece + rest; }
  }

  /** Without bullets, what is kept back is an unfinished sentinel if anything. */
  lemma {:induction false} CarriedStarts(carried: string, pieces: seq<string>)
    requires Lacks(carried, BULLET) && Lacks(Concat(pieces), BULLET)
    requires carried == "" || CONTROL_OPEN <= carried
    ensures Carried(carried, pieces) == "" || CONTROL_OPEN <= Carried(carried, pieces)
    decreases |pieces|
  {
    if pieces != [] {
      var (s, rest) := (carried + pieces[0], Concat(pieces[1..]));
      LacksBoth(pieces[0], rest, BULLET);
      LacksBoth(carried, pieces[0], BULLET);
      KeptStarts(s);
      CarriedStarts(Kept(s), pieces[1..]);
    }
  }

  lemma KeptStarts(s: string)
    requires Lacks(s, BULLET)
    ensures (Kept(s) == "" || CONTROL_OPEN <= Kept(s)) && Lacks(Kept(s), BULLET)
  {
    hide RFindChar, FindFrom, RFind;
  }

  // ----- Without a bar the pieces do not matter -----

  lemma NoBarKept(s: string)
    requires Lacks(s, '|')
    ensures Kept(s) == if NearBullet(s) == -1 then "" else s[NearBullet(s)..]
  {
    NoBarNoHold(AfterLastBullet(s));
    hide RFind, HoldsBack, NearBullet;
  }

  lemma NoBarNoHold(t: string)
    requires Lacks(t, '|')
    ensures !HoldsBack(t)
  {
    forall i ensures !OccursAt(t, CONTROL_OPEN, i) {
      assert 0 <= i && i + 2 <= |t| ==> t[i..i + 2][1] == t[i + 1];
    }
  }

  /** What is kept back is a tail that leaves no bullet near the end behind. */
  lemma NoBarTail(a: string)
    requires Lacks(a, '|')
    ensures Lacks(Kept(a), '|')
    ensures forall k :: 0 <= k < |a| - |Kept(a)| && |a| - k <= MAX_HEADER ==> a[k] != BULLET
  {
    NoBarKept(a);
  }

  lemma KeptOfMore(a: string, c: string)
    requires Lacks(a, '|') && Lacks(c, '|')
    ensures Kept(Kept(a) + c) == Kept(a + c) && Lacks(Kept(a), '|')
  {
    hide *;
    var (s, n, tail) := (a + c, |a| - |Kept(a)|, Kept(a));
    NoBarTail(a);
    LacksBoth(a, c, '|');
    LacksBoth(tail, c, '|');
    NoBarKept(tail + c);
    NoBarKept(s);
    NearOfMore(a, c, n);
    CutTwice(s, n, NearBullet(tail + c));
  }

  lemma NearOfMore(a: string, c: string, n: nat)
    requires n <= |a| && forall k :: 0 <= k < n && |a| - k <= MAX_HEADER ==> a[k] != BULLET
    ensures (a + c)[n..] == a[n..] + c
    ensures var near := NearBullet(a[n..] + c);
            NearBullet(a + c) == (if near == -1 then -1 else n + near) && -1 <= near <= |a + c| - n
  {
    hide NearBullet;
    assert forall k :: 0 <= k < n ==> (a + c)[k] == a[k];
    TailOfMore(a, c, n);
    SameNear(a + c, a[n..] + c, n);
  }

  lemma CutTwice(s: string, n: nat, near: int)
    requires n <= |s| && -1 <= near <= |s| - n
    ensures near != -1 ==> s[n..][near..] == s[n + near..]
  {
  }

  lemma TailOfMore(a: string, c: string, n: nat)
    requires n <= |a|
    ensures (a + c)[n..] == a[n..] + c
    ensures forall k :: 0 <= k < |a[n..] + c| ==> (a[n..] + c)[k] == (a + c)[n + k]
  {
  }

  lemma {:induction false} CarriedIsKept(carried: string, pieces: seq<string>)
    requires Lacks(carried, '|') && Lacks(Concat(pieces), '|') && Kept(carried) == carried
    ensures Carried(carried, pieces) == Kept(carried + Concat(pieces))
    decreases |pieces|
  {
    CarriedNext(carried, pieces);
    hide *;
    if pieces != [] {
      var (s, rest) := (carried + pieces[0], Concat(pieces[1..]));
      LacksBoth(pieces[0], rest, '|');
      LacksBoth(carried, pieces[0], '|');
      KeptTwice(s);
      KeptOfMore(s, rest);
      CarriedIsKept(Kept(s), pieces[1..]);
      ConcatAssoc(carried, pieces[0], rest);
    }
  }

  lemma CarriedNext(carried: string, pieces: seq<string>)
    ensures pieces == [] ==> Carried(carried, pieces) == carried == carried + Concat(pieces)
    ensures pieces != [] ==>
              && Carried(carried, pieces) == Carried(Kept(carried + pieces[0]), pieces[1..])
              && Concat(pieces) == pieces[0] + Concat(pieces[1..])
  {
    hide Kept;
  }

  lemma KeptTwice(s: string)
    requires Lacks(s, '|')
    ensures Kept(Kept(s)) == Kept(s) && Lacks(Kept(s), '|')
  {
    hide Kept;
    KeptOfMore(s, "");
    assert Kept(s) + "" == Kept(s) && s + "" == s;
  }

  lemma BulletLost(pieces: seq<string>)
    requires NoFunc(Concat(pieces)) && Lacks(Concat(pieces), '|')
    ensures var (o, text) := (FeedPieces(START, pieces), Concat(pieces));
            && o.tools == [] && FlushMachine(o.m).1 == []
            && (o.text == text <==> forall k :: 0 <= k < |text| && |text| - k <= MAX_HEADER ==> text[k] != BULLET)
            && (o.text != text ==> NearBullet(text) >= 0 && o.text == text[..NearBullet(text)])
  {
    hide *;
    var (o, text) := (FeedPieces(START, pieces), Concat(pieces));
    NoBarNoControl(text);
    TextLostExactly(pieces);
    NothingKept();
    CarriedIsKept("", pieces);
    NoBarKept(text);
    assert "" + text == text;
    SplitOff(text, o.text, NearBullet(text));
  }

  /** Without a bar too, text is lost exactly when a bullet is among its last 100 characters, however it is cut. */
  lemma BulletLostExactly(pieces: seq<string>)
    requires NoFunc(Concat(pieces)) && Lacks(Concat(pieces), '|')
    ensures var (o, text) := (FeedPieces(START, pieces), Concat(pieces));
            && o.tools == [] && FlushMachine(o.m).1 == []
            && (o.text == text <==> forall k :: 0 <= k < |text| && |text| - k <= 100 ==> text[k] != BULLET)
            && (o.text != text ==> NearBullet(text) >= 0 && o.text == text[..NearBullet(text)])
  {
    BulletLost(pieces);
    hide FeedPieces, FlushMachine, Concat, NearBullet, NoFunc;
  }

  lemma NothingKept()
    ensures Kept("") == "" && Lacks("", '|')
  {
  }

  lemma SplitOff(text: string, front: string, near: int)
    requires -1 <= near < |text| && front + (if near == -1 then "" else text[near..]) == text
    ensures front == text <==> near == -1
    ensures near != -1 ==> front == text[..near]
  {
    if near == -1 { assert front + "" == front; } else { assert text[..near] + text[near..] == text; }
  }

  lemma NoBarNoControl(s: string)
    requires Lacks(s, '|')
    ensures NoControl(s)
  {
    forall i | 0 <= i <= |s| ensures ControlLen(s[i..]) == 0 {
      assert CONTROL_OPEN[1] == '|';
      assert i + 1 < |s| ==> s[i..][1] == s[i + 1];
    }
  }

  /** A bullet at the end of an answer is never released. */
  lemma LastBulletLost(pieces: seq<string>, text: string)
    requires Concat(pieces) == text + [BULLET] && NoFunc(text + [BULLET]) && Lacks(text, '|')
    ensures FeedPieces(START, pieces).text != text + [BULLET]
  {
    BulletLostExactly(pieces);
    assert (text + [BULLET])[|text|] == BULLET;
  }
}
