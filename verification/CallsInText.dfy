/**
 * What the text tool-call parser does to the text around a call: which of it
 * is lost (providers/common/heuristic_tool_parser.py).
 */
module CallsInText {
  import opened Text
  import opened HeuristicParser
  import opened HeuristicText
  import opened HeuristicCalls

  // ----- Cutting a text at a position -----

  /** The pieces of what comes after the first n characters. */
  function Beyond(n: nat, pieces: seq<string>): (r: seq<string>)
    ensures r != [] ==> r[0] != ""
    decreases |pieces|
  {
    if pieces == [] then []
    else if |pieces[0]| <= n then Beyond(n - |pieces[0]|, pieces[1..])
    else [pieces[0][n..]] + pieces[1..]
  }

  /** The pieces before the one that completes the first n characters. */
  function Earlier(n: nat, pieces: seq<string>): seq<string>
    decreases |pieces|
  {
    if pieces == [] || |pieces[0]| >= n then [] else [pieces[0]] + Earlier(n - |pieces[0]|, pieces[1..])
  }

  /** The pieces after that one. */
  function Later(n: nat, pieces: seq<string>): seq<string>
    decreases |pieces|
  {
    if pieces == [] then []
    else if |pieces[0]| >= n then pieces[1..]
    else Later(n - |pieces[0]|, pieces[1..])
  }

  lemma {:induction false} BeyondIsRest(n: nat, pieces: seq<string>)
    requires n <= |Concat(pieces)|
    ensures Concat(Beyond(n, pieces)) == Concat(pieces)[n..]
    decreases |pieces|
  {
    if pieces != [] {
      var (head, rest) := (pieces[0], Concat(pieces[1..]));
      if |head| <= n {
        BeyondIsRest(n - |head|, pieces[1..]);
        assert (head + rest)[n..] == rest[n - |head|..];
      } else {
        assert (head + rest)[n..] == head[n..] + rest;
      }
    }
  }

  lemma {:induction false} BeyondTwice(m: nat, n: nat, pieces: seq<string>)
    ensures Beyond(n, Beyond(m, pieces)) == Beyond(m + n, pieces)
    decreases |pieces|
  {
    if pieces != [] && |pieces[0]| <= m { BeyondTwice(m - |pieces[0]|, n, pieces[1..]); }
  }

  /** One piece completes the first n characters. */
  lemma {:induction false} Completing(n: nat, pieces: seq<string>) returns (piece: string)
    requires 0 < n <= |Concat(pieces)|
    ensures pieces == Earlier(n, pieces) + [piece] + Later(n, pieces)
    ensures |Concat(Earlier(n, pieces))| < n <= |Concat(Earlier(n, pieces))| + |piece|
    ensures Concat(pieces) == Concat(Earlier(n, pieces)) + piece + Concat(Later(n, pieces))
    decreases |pieces|
  {
    piece := pieces[0];
    if |piece| < n {
      var k := n - |pieces[0]|;
      var (before, after) := (Earlier(k, pieces[1..]), Later(k, pieces[1..]));
      piece := Completing(k, pieces[1..]);
      hide Earlier, Later;
      assert ([pieces[0]] + before)[1..] == before;
      assert [pieces[0]] + (before + [piece] + after) == [pieces[0]] + before + [piece] + after;
      hide Concat;
      assert pieces[0] + (Concat(before) + piece + Concat(after)) == pieces[0] + Concat(before) + piece + Concat(after);
    }
  }

  lemma {:induction false} LaterOfBeyond(m: nat, n: nat, pieces: seq<string>)
    requires 0 < n && m + n <= |Concat(pieces)|
    ensures Later(n, Beyond(m, pieces)) == Later(m + n, pieces)
    decreases |pieces|
  {
    if |pieces[0]| <= m { LaterOfBeyond(m - |pieces[0]|, n, pieces[1..]); }
  }

  lemma {:induction false} FeedMore(m: Machine, a: seq<string>, b: seq<string>)
    ensures var o := FeedPieces(m, a);
            FeedPieces(m, a + b) == Before(o.text, o.tools, FeedPieces(o.m, b))
    decreases |a|
  {
    hide FeedMachine;
    if a == [] {
      assert a + b == b;
      BeforeNothing(FeedPieces(m, b));
    } else {
      var o := FeedMachine(m, a[0]);
      assert (a + b)[0] == a[0] && (a + b)[1..] == a[1..] + b;
      FeedMore(o.m, a[1..], b);
      var rest := FeedPieces(o.m, a[1..]);
      BeforeBefore(o.text, o.tools, rest.text, rest.tools, FeedPieces(rest.m, b));
    }
  }

  // ----- Text before a call -----

  /** The first header of a call begins at n, if one does. */
  ghost predicate NoHeaderBefore(s: string, n: nat) {
    forall i: nat :: i < n ==> FuncAt(s, i).None?
  }

  /** The first bullet of s at or after `from`, or its end. */
  function FirstBullet(s: string, from: nat): (r: nat)
    ensures r <= |s| && (r < |s| ==> from <= r && s[r] == BULLET)
    ensures forall k :: from <= k < r ==> s[k] != BULLET
  {
    if from >= |s| || IndexOf(s, BULLET, from) == -1 then |s| else IndexOf(s, BULLET, from)
  }

  lemma {:induction false} SearchFrom(s: string, from: nat, n: nat)
    requires from <= n <= |s| && NoHeaderBefore(s, n)
    ensures FuncSearch(s, from) == FuncSearch(s, n)
    decreases n - from
  {
    if from < n { SearchFrom(s, from + 1, n); }
  }

  /** The machine that has found the header. */
  function Found(call: Call, rest: string): Machine {
    Machine(PARSING_PARAMETERS, rest, Strip(call.name), map[])
  }

  /** The search for a header finds it anywhere in the buffer, and what comes before it is forgotten. */
  lemma SkipsToHeader(call: Call, m: Machine, p: string, rest: string)
    requires WellFormed(call) && m.state == MATCHING_FUNCTION && m.buffer == p + (Header(call) + rest)
    requires NoHeaderBefore(m.buffer, |p|)
    ensures Drive(m) == Drive(Found(call, rest))
  {
    var (h, s) := (Header(call) + rest, m.buffer);
    hide *;
    FuncFound(call, rest);
    FuncInPart(p, h, "", 0);
    assert p + h + "" == s && s[|p| + |Header(call)|..] == rest;
    SearchFrom(s, 0, |p|);
    SearchHere(s, |p|);
    MatchDriven(m, call.name, |p| + |Header(call)|);
    FoundIs(call, rest);
  }

  lemma MatchDriven(m: Machine, name: string, end: nat)
    requires m.state == MATCHING_FUNCTION && FuncSearch(m.buffer, 0) == Some(FuncMatch(name, end)) && end <= |m.buffer|
    ensures Drive(m) == Drive(Machine(PARSING_PARAMETERS, m.buffer[end..], Strip(name), map[]))
  {
    hide FuncSearch, TakeParams, Strip;
  }

  lemma FoundIs(call: Call, rest: string)
    ensures Found(call, rest) == Machine(PARSING_PARAMETERS, rest, Strip(call.name), map[])
  {
  }

  lemma SearchHere(s: string, from: nat)
    requires from <= |s| && FuncAt(s, from).Some?
    ensures FuncSearch(s, from) == FuncAt(s, from)
  {
    hide FuncAt;
  }

  lemma HeaderAlone(call: Call, rest: string)
    requires WellFormed(call)
    ensures Drive(START.(buffer := Header(call) + rest)) == Drive(Found(call, rest))
  {
    var h := Header(call) + rest;
    assert h[0] == BULLET && "" + h == h;
    hide Drive, Header, WellFormed;
    DriveBullet(START.(buffer := h));
    SkipsToHeader(call, START.(state := MATCHING_FUNCTION, buffer := h), "", rest);
  }

  lemma NoHeaderInTail(a: string, s: string, n: nat)
    requires |a| <= n && NoHeaderBefore(a + s, n)
    ensures NoHeaderBefore(s, n - |a|)
  {
    hide FuncAt;
    assert a + s + "" == a + s;
    forall i: nat | i < n - |a| ensures FuncAt(s, i).None? {
      if FuncAt(s, i).Some? { FuncInPart(a, s, "", i); }
    }
  }

  /** The machine passes over everything from the first bullet up to the header, and forgets it. */
  lemma DriveToHeader(call: Call, m: Machine, p: string, rest: string)
    requires WellFormed(call) && m.buffer == p + (Header(call) + rest) && NoHeaderBefore(m.buffer, |p|)
    requires m.state == TEXT || (m.state == MATCHING_FUNCTION && m.buffer[0] == BULLET)
    ensures Drive(m) == Before(p[..FirstBullet(p, 0)], [], Drive(START.(buffer := Header(call) + rest)))
  {
    var f := FirstBullet(p, 0);
    var (front, tail) := (p[..f], p[f..] + (Header(call) + rest));
    hide *;
    StartsWithBullet(call, p, rest);
    HeaderAlone(call, rest);
    NoHeaderInTail(front, tail, |p|);
    SkipsToHeader(call, m.(state := MATCHING_FUNCTION, buffer := tail), p[f..], rest);
    if m.state == TEXT { DriveToTail(m, front, tail); } else { DriveFromHead(m, p, front, tail); }
  }

  lemma DriveToTail(m: Machine, front: string, tail: string)
    requires m.state == TEXT && m.buffer == front + tail && Lacks(front, BULLET) && tail != "" && tail[0] == BULLET
    ensures Drive(m) == Before(front, [], Drive(m.(state := MATCHING_FUNCTION, buffer := tail)))
  {
    hide *;
    assert tail == [BULLET] + tail[1..];
    assert m.buffer == front + [BULLET] + tail[1..];
    DriveToBullet(m, front, tail[1..]);
  }

  lemma DriveFromHead(m: Machine, p: string, front: string, tail: string)
    requires m.state == MATCHING_FUNCTION && front == "" && m.buffer == front + tail
    ensures Drive(m) == Before(front, [], Drive(m.(state := MATCHING_FUNCTION, buffer := tail)))
  {
    hide Drive;
    assert tail == m.buffer;
    BeforeNothing(Drive(m));
  }

  lemma StartsWithBullet(call: Call, p: string, rest: string)
    ensures var f := FirstBullet(p, 0);
            var tail := p[f..] + (Header(call) + rest);
            && tail != "" && tail[0] == BULLET && Lacks(p[..f], BULLET)
            && p + (Header(call) + rest) == p[..f] + tail
            && ((p + (Header(call) + rest))[0] == BULLET ==> p[..f] == "")
  {
    hide IndexOf;
  }

  /** What is fed before the header is complete holds no header. */
  lemma NoFuncBefore(call: Call, pre: string, rest: string, s: string)
    requires WellFormed(call) && NoHeaderBefore(pre + (Header(call) + rest), |pre|)
    requires s <= pre + (Header(call) + rest) && |s| < |pre| + |Header(call)|
    ensures NoFunc(s)
  {
    var whole := pre + (Header(call) + rest);
    assert "" + s + whole[|s|..] == whole;
    forall i: nat ensures FuncAt(s, i).None? {
      if FuncAt(s, i).Some? {
        FuncInPart("", s, whole[|s|..], i);
        var _, e := FuncHere(s, i);
        IsInHeader(call, pre, rest, s, i, e);
      }
    }
  }

  lemma IsInHeader(call: Call, pre: string, rest: string, s: string, i: nat, e: nat)
    requires WellFormed(call) && s <= pre + (Header(call) + rest) && |pre| <= i < e < |s| < |pre| + |Header(call)|
    ensures s[e] != '>' || s[i] != BULLET
  {
    HeaderChars(call, e - |pre|);
    assert s[e] == Header(call)[e - |pre|];
  }

  /**
   * What is kept of the text before the header is complete: it reaches back
   * to the header's bullet, if that is there already.
   */
  lemma KeptBeforeHeader(call: Call, pre: string, rest: string, pieces: seq<string>) returns (kept: string)
    requires WellFormed(call) && Concat(pieces) <= pre + (Header(call) + rest) && |Concat(pieces)| < |pre| + |Header(call)|
    ensures var s := Concat(pieces);
            && kept == Carried("", pieces) && |kept| <= |s| && kept == s[|s| - |kept|..] && |s| - |kept| <= |pre|
  {
    hide *;
    kept := Carried("", pieces);
    KeptIsTail(pieces);
    BulletIsNear(call, pre, rest, Concat(pieces), |Concat(pieces)| - |kept|);
  }

  lemma BulletIsNear(call: Call, pre: string, rest: string, s: string, n: nat)
    requires WellFormed(call) && s <= pre + (Header(call) + rest) && |s| < |pre| + |Header(call)|
    requires n <= |s| && FarBullets(s[..n], s[n..])
    ensures n <= |pre|
  {
    HeaderFits(call);
    hide WellFormed;
    BulletThere(pre, Header(call) + rest, s, n);
  }

  lemma BulletThere(pre: string, h: string, s: string, n: nat)
    requires s <= pre + h && n <= |s| && h != "" && h[0] == BULLET
    ensures |pre| < n ==> s[..n][|pre|] == BULLET
  {
  }

  lemma HeaderFits(call: Call)
    requires WellFormed(call)
    ensures |Header(call)| <= MAX_HEADER + 1
  {
  }

  /** How much of the text before a call is shown: all up to the first bullet that is still kept when the header is complete. */
  function ShownBefore(pre: string, before: seq<string>): string {
    var s := |Concat(before)|;
    var k := |Carried("", before)|;
    pre[..FirstBullet(pre, if k <= s then s - k else 0)]
  }

  lemma NoHeaderInPart(a: string, s: string, c: string, n: nat)
    requires |a| <= n && NoHeaderBefore(a + s + c, n)
    ensures NoHeaderBefore(s, n - |a|)
  {
    hide FuncAt;
    forall i: nat | i < n - |a| ensures FuncAt(s, i).None? {
      if FuncAt(s, i).Some? { FuncInPart(a, s, c, i); }
    }
  }

  /** The machine at the piece that completes the header. */
  lemma CompleteHeader(call: Call, pre: string, h: string, c: string, m: Machine, piece: string, k: nat)
    requires WellFormed(call) && Header(call) <= h && NoControl(pre + h + c) && NoHeaderBefore(pre + h + c, |pre|)
    requires Idle(m) && k <= |pre| && m.buffer + piece == pre[k..] + h
    ensures FeedMachine(m, piece) == Before(pre[k..][..FirstBullet(pre[k..], 0)], [], FeedMachine(START, h))
  {
    var (p, r) := (pre[k..], h[|Header(call)|..]);
    assert h == Header(call) + r;
    IdleStaysIdle(m, piece);
    hide *;
    assert pre[..k] + (p + h) + c == pre + h + c by { assert pre[..k] + p == pre; }
    NoControlInPart(pre[..k], p + h, c);
    NoControlInPart(pre, h, c);
    NoControlNoStrip(p + h);
    NoControlNoStrip(h);
    assert "" + h == h;
    FeedIsDrive(m, piece);
    FeedIsDrive(START, h);
    NoHeaderInPart(pre[..k], p + h, c, |pre|);
    DriveToHeader(call, m.(buffer := p + h), p, r);
  }

  lemma IdleStaysIdle(m: Machine, piece: string)
    requires Idle(m)
    ensures m.state == TEXT || (m.state == MATCHING_FUNCTION && m.buffer + piece != "" && (m.buffer + piece)[0] == BULLET)
  {
  }

  /** The call's own text as far as the piece reaches that completes its header. */
  function HeadFed(call: Call, rest: string, later: seq<string>): string {
    var (h, n) := (Header(call) + rest, |Concat(later)|);
    if n <= |h| then h[..|h| - n] else ""
  }

  /** The run of the call alone, with its header in one piece. */
  function FromHeader(call: Call, rest: string, later: seq<string>): Outcome {
    FeedPieces(START, [HeadFed(call, rest, later)] + later)
  }

  /** The pieces make up a text in which the call is the first, and nothing is stripped from it. */
  ghost predicate HasCall(call: Call, pre: string, rest: string, pieces: seq<string>) {
    && WellFormed(call) && Concat(pieces) == pre + (Header(call) + rest)
    && NoControl(Concat(pieces)) && NoHeaderBefore(Concat(pieces), |pre|)
  }

  lemma FeedAtHeader(call: Call, pre: string, rest: string, pieces: seq<string>)
    requires HasCall(call, pre, rest, pieces)
    ensures var n := |pre| + |Header(call)|;
            var (before, later) := (Earlier(n, pieces), Later(n, pieces));
            FeedPieces(START, pieces) == Before(ShownBefore(pre, before), [], FromHeader(call, rest, later))
  {
    FromHeaderIs(call, rest, Later(|pre| + |Header(call)|, pieces));
    assert WellFormed(call);
    hide *;
    var n := |pre| + |Header(call)|;
    var (before, later) := (Earlier(n, pieces), Later(n, pieces));
    var piece, h, k := FedUpToHeader(call, pre, rest, pieces);
    CompleteHeader(call, pre, h, Concat(later), FeedPieces(START, before).m, piece, k);
    FeedThree(before, piece, later, h, pre[..k], pre[k..][..FirstBullet(pre[k..], 0)]);
    ShownIs(pre, before, k);
  }

  /** Where the machine stands before the piece that completes the header, and what it has released. */
  lemma FedUpToHeader(call: Call, pre: string, rest: string, pieces: seq<string>) returns (piece: string, h: string, k: nat)
    requires HasCall(call, pre, rest, pieces)
    ensures var n := |pre| + |Header(call)|;
            var (before, later) := (Earlier(n, pieces), Later(n, pieces));
            var o := FeedPieces(START, before);
            && pieces == before + [piece] + later && h == HeadFed(call, rest, later) && Header(call) <= h
            && NoControl(pre + h + Concat(later)) && NoHeaderBefore(pre + h + Concat(later), |pre|)
            && k == |Concat(before)| - |Carried("", before)| && k <= |pre|
            && o.tools == [] && o.text == pre[..k] && Idle(o.m) && o.m.buffer + piece == pre[k..] + h
  {
    assert WellFormed(call) && Concat(pieces) == pre + (Header(call) + rest);
    assert NoControl(Concat(pieces)) && NoHeaderBefore(Concat(pieces), |pre|);
    hide *;
    var n := |pre| + |Header(call)|;
    var (before, later) := (Earlier(n, pieces), Later(n, pieces));
    HeaderNotEmpty(call);
    piece := Completing(n, pieces);
    var s := Concat(before);
    h := CutAtPiece(call, pre, rest, s, piece, later);
    NoFuncBefore(call, pre, rest, s);
    FrontNoControl(s, piece, Concat(later), Concat(pieces));
    var kept := KeptBeforeHeader(call, pre, rest, before);
    k := |s| - |kept|;
    FedFront(before);
    KeptAndPiece(pre, h, s, piece, kept, FeedPieces(START, before).text);
  }

  lemma FrontNoControl(s: string, piece: string, c: string, whole: string)
    requires whole == s + piece + c && NoControl(whole)
    ensures NoControl(s)
  {
    hide NoControl;
    assert "" + s + (piece + c) == whole;
    NoControlInPart("", s, piece + c);
  }

  lemma FedFront(before: seq<string>)
    requires NoFunc(Concat(before)) && NoControl(Concat(before))
    ensures var o := FeedPieces(START, before);
            o.tools == [] && Idle(o.m) && o.m.buffer == Carried("", before) && o.text + o.m.buffer == Concat(before)
  {
    hide *;
    BeginsIdle(Concat(before));
    FeedAllText(START, "", before);
  }

  lemma FromHeaderIs(call: Call, rest: string, later: seq<string>)
    ensures FromHeader(call, rest, later) == FeedPieces(START, [HeadFed(call, rest, later)] + later)
  {
  }

  lemma HeaderNotEmpty(call: Call)
    ensures |Header(call)| > 0
  {
  }

  lemma BeginsIdle(s: string)
    ensures Idle(START) && START.buffer == "" && "" + START.buffer + s == s && START.buffer + s == s
  {
  }

  lemma CutAtPiece(call: Call, pre: string, rest: string, s: string, piece: string, later: seq<string>) returns (h: string)
    requires s + piece + Concat(later) == pre + (Header(call) + rest)
    requires |s| < |pre| + |Header(call)| <= |s| + |piece|
    ensures h == HeadFed(call, rest, later) && Header(call) <= h && s + piece == pre + h
    ensures pre + h + Concat(later) == pre + (Header(call) + rest) && s <= pre + (Header(call) + rest)
  {
    h := HeadFed(call, rest, later);
    var (whole, n) := (pre + (Header(call) + rest), |s + piece|);
    hide Concat, Header;
    assert s + piece == whole[..n] && s == whole[..|s|];
    assert h == (Header(call) + rest)[..n - |pre|];
    assert whole[..n] == pre + h;
  }

  lemma KeptAndPiece(pre: string, h: string, s: string, piece: string, kept: string, released: string)
    requires s + piece == pre + h && |kept| <= |s| && kept == s[|s| - |kept|..] && |s| - |kept| <= |pre| && released + kept == s
    ensures kept + piece == pre[|s| - |kept|..] + h && released == pre[..|s| - |kept|]
  {
    var k := |s| - |kept|;
    assert released == s[..k];
    assert kept + piece == (s + piece)[k..];
    assert (pre + h)[k..] == pre[k..] + h;
    assert s[..k] == (s + piece)[..k] == (pre + h)[..k] == pre[..k];
  }

  lemma FeedThree(before: seq<string>, piece: string, later: seq<string>, h: string, a: string, b: string)
    requires var o := FeedPieces(START, before);
             && o.text == a && o.tools == []
             && FeedMachine(o.m, piece) == Before(b, [], FeedMachine(START, h))
    ensures FeedPieces(START, before + [piece] + later) == Before(a + b, [], FeedPieces(START, [h] + later))
  {
    hide *;
    var (o, d) := (FeedPieces(START, before), FeedMachine(START, h));
    var e := FeedPieces(d.m, later);
    assert before + [piece] + later == before + ([piece] + later);
    FeedMore(START, before, [piece] + later);
    FeedFirst(o.m, piece, later);
    FeedFirst(START, h, later);
    BeforeBefore(b, [], d.text, d.tools, e);
    BeforeBefore(a, [], b, [], Before(d.text, d.tools, e));
    SameBefore(a, b, d, e);
  }

  lemma SameBefore(a: string, b: string, d: Outcome, e: Outcome)
    ensures Before(b, [], d) == Outcome(d.m, b + d.text, d.tools)
    ensures Before(a + b, [], Before(d.text, d.tools, e)) == Before(a, [], Before(b + d.text, d.tools, e))
  {
    assert [] + d.tools == d.tools;
    assert a + b + (d.text + e.text) == a + (b + d.text + e.text);
  }

  lemma ShownIs(pre: string, before: seq<string>, k: nat)
    requires k == |Concat(before)| - |Carried("", before)| && k <= |pre|
    ensures pre[..k] + pre[k..][..FirstBullet(pre[k..], 0)] == ShownBefore(pre, before)
  {
    ShownUpTo(pre, before, k);
    hide *;
    FirstBulletFrom(pre, k);
    CutTwiceFrom(pre, k, FirstBullet(pre[k..], 0));
  }

  lemma ShownUpTo(pre: string, before: seq<string>, k: nat)
    requires k == |Concat(before)| - |Carried("", before)|
    ensures ShownBefore(pre, before) == pre[..FirstBullet(pre, k)]
  {
    hide Concat, Carried, FirstBullet;
  }

  lemma CutTwiceFrom(s: string, k: nat, f: nat)
    requires k + f <= |s|
    ensures s[..k] + s[k..][..f] == s[..k + f]
  {
  }

  lemma FirstBulletFrom(s: string, k: nat)
    requires k <= |s|
    ensures FirstBullet(s, k) == k + FirstBullet(s[k..], 0)
  {
    var (a, b) := (FirstBullet(s, k), FirstBullet(s[k..], 0));
    assert forall i :: 0 <= i < |s[k..]| ==> s[k..][i] == s[k + i];
    assert forall i :: k <= i < |s| ==> s[i] == s[k..][i - k];
    hide FirstBullet;
    FirstBulletFacts(s, k);
    FirstBulletFacts(s[k..], 0);
  }

  lemma FirstBulletFacts(s: string, from: nat)
    requires from <= |s|
    ensures var r := FirstBullet(s, from);
            from <= r <= |s| && (r < |s| ==> s[r] == BULLET) && forall k :: from <= k < r ==> s[k] != BULLET
  {
  }

  /**
   * Text before a call, in any pieces: what is shown of it is all up to the
   * first bullet that is still kept when the header is complete, and all else
   * is as if the call and what follows were fed alone, cut in the same places.
   */
  lemma TextBeforeCall(call: Call, pre: string, rest: string, pieces: seq<string>)
    requires HasCall(call, pre, rest, pieces)
    ensures var before := Earlier(|pre| + |Header(call)|, pieces);
            FeedPieces(START, pieces) == Before(ShownBefore(pre, before), [], FeedPieces(START, Beyond(|pre|, pieces)))
  {
    hide *;
    FeedAtHeader(call, pre, rest, pieces);
    FeedAlone(call, pre, rest, pieces);
  }

  lemma FeedAlone(call: Call, pre: string, rest: string, pieces: seq<string>)
    requires HasCall(call, pre, rest, pieces)
    ensures FeedPieces(START, Beyond(|pre|, pieces)) == FromHeader(call, rest, Later(|pre| + |Header(call)|, pieces))
  {
    hide *;
    var (alone, n) := (Beyond(|pre|, pieces), |Header(call)|);
    HeaderNotEmpty(call);
    AloneHasCall(call, pre, rest, pieces);
    FeedAtHeader(call, "", rest, alone);
    LaterOfBeyond(|pre|, n, pieces);
    NothingShown(Earlier(n, alone));
    BeforeNothing(FromHeader(call, rest, Later(n, alone)));
  }

  lemma AloneHasCall(call: Call, pre: string, rest: string, pieces: seq<string>)
    requires HasCall(call, pre, rest, pieces)
    ensures HasCall(call, "", rest, Beyond(|pre|, pieces)) && |pre| + |Header(call)| <= |Concat(pieces)|
    ensures Concat(Beyond(|pre|, pieces)) == Header(call) + rest
  {
    var h := Header(call) + rest;
    BeyondIsRest(|pre|, pieces);
    NoneBefore(h);
    hide Concat, Beyond, NoControl, NoHeaderBefore, WellFormed, Header;
    TailOf(pre, h);
    NoControlInPart(pre, h, "");
  }

  lemma TailOf(a: string, b: string)
    ensures (a + b)[|a|..] == b && a + b + "" == a + b && "" + b == b && |a + b| == |a| + |b|
  {
  }

  lemma NoneBefore(s: string)
    ensures NoHeaderBefore(s, 0)
  {
  }

  lemma NothingShown(before: seq<string>)
    ensures ShownBefore("", before) == ""
  {
  }

  lemma TextBeforeCallNear(call: Call, pre: string, rest: string, pieces: seq<string>)
    requires HasCall(call, pre, rest, pieces) && Lacks(pre + Header(call), '|')
    ensures var fed := |Concat(Earlier(|pre| + |Header(call)|, pieces))|;
            var (o, alone) := (FeedPieces(START, pieces), FeedPieces(START, Beyond(|pre|, pieces)));
            && o == Before(pre[..FirstBullet(pre, if fed > MAX_HEADER then fed - MAX_HEADER else 0)], [], alone)
            && (o.text == pre + alone.text <==> forall k :: 0 <= k < |pre| && pre[k] == BULLET ==> fed - k > MAX_HEADER)
  {
    hide *;
    var before := Earlier(|pre| + |Header(call)|, pieces);
    var fed := |Concat(before)|;
    TextBeforeCall(call, pre, rest, pieces);
    FedInFront(call, pre, rest, pieces);
    ShownWithoutBar(call, pre, rest, before);
    AllShownExactly(pre, fed, FeedPieces(START, Beyond(|pre|, pieces)));
  }

  /**
   * Without a bar the pieces matter only by what was fed before the one that
   * completes the header: text is lost exactly from the first bullet on that is
   * in that piece or among the last 100 characters before it.
   */
  lemma TextBeforeCallExactly(call: Call, pre: string, rest: string, pieces: seq<string>)
    requires HasCall(call, pre, rest, pieces) && Lacks(pre + Header(call), '|')
    ensures var fed := |Concat(Earlier(|pre| + |Header(call)|, pieces))|;
            var (o, alone) := (FeedPieces(START, pieces), FeedPieces(START, Beyond(|pre|, pieces)));
            && o == Before(pre[..FirstBullet(pre, if fed > 100 then fed - 100 else 0)], [], alone)
            && (o.text == pre + alone.text <==> forall k :: 0 <= k < |pre| && pre[k] == BULLET ==> fed - k > 100)
  {
    TextBeforeCallNear(call, pre, rest, pieces);
    hide FeedPieces, Concat, Earlier, Beyond, Before, FirstBullet, HasCall, Header;
  }

  lemma FedInFront(call: Call, pre: string, rest: string, pieces: seq<string>)
    requires HasCall(call, pre, rest, pieces)
    ensures var s := Concat(Earlier(|pre| + |Header(call)|, pieces));
            WellFormed(call) && s <= pre + Header(call) && |s| < |pre| + |Header(call)|
  {
    HeaderNotEmpty(call);
    var n := |pre| + |Header(call)|;
    var piece := Completing(n, pieces);
    var (s, c, h) := (Concat(Earlier(n, pieces)), Concat(Later(n, pieces)), pre + Header(call));
    hide Concat, Earlier, Later, Header, NoControl, NoHeaderBefore, WellFormed;
    assert pre + (Header(call) + rest) == h + rest;
    assert s == (s + piece + c)[..|s|] == (h + rest)[..|s|] == h[..|s|];
  }

  lemma ShownWithoutBar(call: Call, pre: string, rest: string, before: seq<string>)
    requires WellFormed(call) && Concat(before) <= pre + Header(call) && |Concat(before)| < |pre| + |Header(call)|
    requires Lacks(pre + Header(call), '|')
    ensures var fed := |Concat(before)|;
            ShownBefore(pre, before) == pre[..FirstBullet(pre, if fed > MAX_HEADER then fed - MAX_HEADER else 0)]
  {
    hide *;
    var (s, near) := (Concat(before), NearBullet(Concat(before)));
    PrefixLacks(s, pre + Header(call), '|');
    HeaderFits(call);
    NearIsFirst(call, pre, s);
    KeptWithoutBar(before, s);
    ShownUpTo(pre, before, if near == -1 then |s| else near);
  }

  lemma KeptWithoutBar(before: seq<string>, s: string)
    requires s == Concat(before) && Lacks(s, '|')
    ensures |Carried("", before)| == if NearBullet(s) == -1 then 0 else |s| - NearBullet(s)
  {
    hide *;
    assert "" + s == s;
    NothingKept();
    CarriedIsKept("", before);
    NoBarKept(s);
  }

  lemma PrefixLacks(s: string, t: string, c: char)
    requires s <= t && Lacks(t, c)
    ensures Lacks(s, c)
  {
    assert forall i :: 0 <= i < |s| ==> s[i] == t[i];
  }

  lemma NearIsFirst(call: Call, pre: string, s: string)
    requires s <= pre + Header(call) && |s| < |pre| + |Header(call)| && |Header(call)| <= MAX_HEADER + 1
    ensures var near := NearBullet(s);
            && -1 <= near < |s|
            && FirstBullet(pre, if near == -1 then |s| else near)
            == FirstBullet(pre, if |s| > MAX_HEADER then |s| - MAX_HEADER else 0)
  {
    var (near, h) := (NearBullet(s), pre + Header(call));
    var from := if |s| > MAX_HEADER then |s| - MAX_HEADER else 0;
    assert forall i :: 0 <= i < |s| ==> s[i] == h[i];
    assert |s| > |pre| ==> s[|pre|] == Header(call)[0] == BULLET;
    assert forall i :: 0 <= i < |s| && i < |pre| ==> s[i] == pre[i];
    hide NearBullet, Header;
    assert |s| > |pre| ==> near != -1 && near <= |pre|;
    SameFirst(pre, if near == -1 then |s| else near, from);
  }

  /** Without bullets in between the search finds the same from either place on. */
  lemma SameFirst(s: string, a: nat, b: nat)
    requires b <= a && forall k :: b <= k < a && k < |s| ==> s[k] != BULLET
    ensures FirstBullet(s, a) == FirstBullet(s, b)
  {
    var (x, y) := (FirstBullet(s, a), FirstBullet(s, b));
    hide FirstBullet;
    assert y < |s| ==> y >= a;
  }

  lemma AllShownExactly(pre: string, fed: nat, alone: Outcome)
    ensures var shown := pre[..FirstBullet(pre, if fed > MAX_HEADER then fed - MAX_HEADER else 0)];
            shown + alone.text == pre + alone.text <==> forall k :: 0 <= k < |pre| && pre[k] == BULLET ==> fed - k > MAX_HEADER
    ensures forall a: string :: Before(a, [], alone).text == a + alone.text
  {
    var r := FirstBullet(pre, if fed > MAX_HEADER then fed - MAX_HEADER else 0);
    hide FirstBullet;
    if r < |pre| {
      assert |pre[..r] + alone.text| < |pre + alone.text|;
    } else {
      assert pre[..r] == pre;
    }
  }

  /** A bulleted line before a call, in one piece with its header: all from its bullet on is lost. */
  lemma BulletedLineLost(call: Call, front: string, line: string)
    requires WellFormed(call) && Lacks(front, BULLET)
    requires var s := front + [BULLET] + line + Header(call);
             NoControl(s) && NoHeaderBefore(s, |front| + 1 + |line|)
    ensures FeedMachine(START, front + [BULLET] + line + Header(call)).text == front
  {
    hide *;
    var pre := front + [BULLET] + line;
    var whole := pre + Header(call);
    LineBullet(front, line);
    BareHeader(call);
    WholeFacts(pre, Header(call));
    BeginsIdle(whole);
    CompleteHeader(call, pre, Header(call), "", START, whole, 0);
    TextOfBefore(front, FeedMachine(START, Header(call)));
  }

  lemma LineBullet(front: string, line: string)
    requires Lacks(front, BULLET)
    ensures var pre := front + [BULLET] + line;
            FirstBullet(pre[0..], 0) == |front| && pre[0..][..FirstBullet(pre[0..], 0)] == front
  {
    var pre := front + [BULLET] + line;
    assert pre[0..] == pre;
    assert pre[|front|] == BULLET && forall i :: 0 <= i < |front| ==> pre[i] == front[i];
    FirstBulletIs(pre, |front|);
    hide FirstBullet;
    assert pre[..|front|] == front;
  }

  lemma WholeFacts(pre: string, h: string)
    ensures "" + (pre + h) == pre[0..] + h && pre + h + "" == pre + h && h <= h
  {
  }

  lemma TextOfBefore(a: string, o: Outcome)
    ensures Before(a, [], o).text == a + o.text && a + "" == a
  {
  }

  lemma FirstBulletIs(s: string, at: nat)
    requires at < |s| && s[at] == BULLET && forall i :: 0 <= i < at ==> s[i] != BULLET
    ensures FirstBullet(s, 0) == at
  {
    hide IndexOf;
  }

  lemma BareHeader(call: Call)
    requires WellFormed(call)
    ensures FeedMachine(START, Header(call)).text == ""
  {
    var h := Header(call);
    assert h + "" == h && "" + h == h && "" + h + ParamsText(call.params) == CallText(call);
    NoControlInPart("", h, ParamsText(call.params));
    NoControlNoStrip(h);
    hide WellFormed, Header, NoControl, StripControlTokens, Drive;
    HeaderAlone(call, "");
    NothingToDrive(Found(call, ""));
  }

  lemma NothingToDrive(m: Machine)
    requires m.state == PARSING_PARAMETERS && m.buffer == ""
    ensures Drive(m) == Outcome(m, "", [])
  {
    assert ClosedParam("").None? && !CallIsOver("");
  }

  // ----- Text after a call -----

  /** Text without bullets, bars and parameter tags. */
  ghost predicate Aside(text: string) {
    Lacks(text, BULLET) && Lacks(text, '|') && forall i :: !OccursAt(text, PARAM_OPEN, i)
  }

  /** The parser waits for more of it, as of a tag. */
  predicate LooksLikeTag(text: string) {
    "<" <= Strip(text)
  }

  lemma AsideParts(a: string, b: string)
    requires Aside(a + b)
    ensures Aside(a) && Aside(b)
  {
    LacksBoth(a, b, BULLET);
    LacksBoth(a, b, '|');
    assert "" + a + b == a + b && a + b + "" == a + b;
    forall i ensures !OccursAt(a, PARAM_OPEN, i) && !OccursAt(b, PARAM_OPEN, i) {
      if OccursAt(a, PARAM_OPEN, i) { PartOccurs("", a, b, PARAM_OPEN, i); }
      if OccursAt(b, PARAM_OPEN, i) { PartOccurs(a, b, "", PARAM_OPEN, i); }
    }
  }

  lemma {:induction false} NoTagNoParam(s: string, from: nat)
    requires from <= |s| && forall i :: !OccursAt(s, PARAM_OPEN, i)
    ensures ParamSearch(s, from).None? && OpenParam(s, from).None?
    decreases |s| - from
  {
    if from < |s| { NoTagNoParam(s, from + 1); }
  }

  lemma AsideWaits(text: string)
    requires Aside(text) && text != ""
    ensures ClosedParam(text).None? && (CallIsOver(text) <==> !LooksLikeTag(text)) && SplitAtBullet(text) == (text, "")
    ensures OpenParam(text, 0).None?
  {
    NoTagNoParam(text, 0);
    hide ParamSearch, OpenParam, Strip;
  }

  /** What begins like a tag still does when more comes. */
  lemma TagGrows(a: string, b: string)
    requires LooksLikeTag(a)
    ensures LooksLikeTag(a + b)
  {
    var k := SkipSpaces(a, 0);
    RStripIsPrefix(a[k..]);
    assert a[k..] != "" && a[k..][0] == '<';
    assert (a + b)[k] == a[k] == '<' && forall j :: 0 <= j < k ==> (a + b)[j] == a[j];
    StripFindsHead(a + b, k);
  }

  lemma {:induction false} RStripIsPrefix(s: string)
    ensures RStrip(s) <= s
  {
    if s != "" && IsSpace(s[|s| - 1]) { RStripIsPrefix(s[..|s| - 1]); }
  }

  lemma {:induction false} TakeAll(ps: seq<Param>, more: string, m: Machine)
    requires forall k :: 0 <= k < |ps| ==> WellFormedParam(ps[k])
    requires ClosedParam(more).None? && m.buffer == ParamsText(ps) + more
    ensures TakeParams(m) == Outcome(m.(buffer := more, params := ParamMap(ps, m.params)), GapsOf(ps), [])
    decreases |ps|
  {
    hide TakeParams, WellFormedParam, ParamText, Strip, ClosedParam;
    if ps == [] {
      assert "" + more == more;
      TakeNone(m);
    } else {
      var tail := ParamsText(ps[1..]) + more;
      var next := m.(buffer := tail, params := m.params[Strip(ps[0].key) := Strip(ps[0].value)]);
      ConcatAssoc(ParamText(ps[0]), ParamsText(ps[1..]), more);
      TakeOne(ps[0], tail, m);
      TakeAll(ps[1..], more, next);
      hide ParamsText;
      assert ParamMap(ps, m.params) == ParamMap(ps[1..], next.params);
    }
  }

  /**
   * What comes of the first text after the parameters: it ends the call,
   * released before the tool is handed out, or is held.
   */
  function EndOutcome(call: Call, gaps: string, more: string): Outcome {
    if LooksLikeTag(more)
    then Outcome(Machine(PARSING_PARAMETERS, more, Strip(call.name), ToolOf(call).input), gaps, [])
    else Outcome(Machine(TEXT, "", Strip(call.name), ToolOf(call).input), gaps + more, [ToolOf(call)])
  }

  lemma DriveToEnd(call: Call, n: nat, m: Machine, more: string)
    requires WellFormed(call) && n <= |call.params| && Aside(more) && more != ""
    requires m.state == PARSING_PARAMETERS && m.name == Strip(call.name) && m.params == ParamMap(call.params[..n], map[])
    requires m.buffer == ParamsText(call.params[n..]) + more
    ensures Drive(m) == EndOutcome(call, GapsOf(call.params[n..]), more)
  {
    AsideWaits(more);
    var tool := ToolOf(call);
    EndIs(call, GapsOf(call.params[n..]), more);
    hide *;
    AllParams(call, n);
    TakeAll(call.params[n..], more, m);
    if LooksLikeTag(more) {
      DriveHolds(m, more, tool.input, GapsOf(call.params[n..]));
    } else {
      DriveEnds(m, more, tool.input, GapsOf(call.params[n..]));
    }
  }

  lemma EndIs(call: Call, gaps: string, more: string)
    ensures EndOutcome(call, gaps, more) ==
              if LooksLikeTag(more)
              then Outcome(Machine(PARSING_PARAMETERS, more, Strip(call.name), ToolOf(call).input), gaps, [])
              else Outcome(Machine(TEXT, "", Strip(call.name), ToolOf(call).input), gaps + more, [ToolOf(call)])
  {
  }

  lemma DriveHolds(m: Machine, more: string, params: map<string, string>, gaps: string)
    requires m.state == PARSING_PARAMETERS && TakeParams(m) == Outcome(m.(buffer := more, params := params), gaps, [])
    requires !CallIsOver(more)
    ensures Drive(m) == Outcome(Machine(PARSING_PARAMETERS, more, m.name, params), gaps, [])
  {
    hide TakeParams, CallIsOver;
  }

  lemma AllParams(call: Call, n: nat)
    requires WellFormed(call) && n <= |call.params|
    ensures forall k :: 0 <= k < |call.params[n..]| ==> WellFormedParam(call.params[n..][k])
    ensures ParamMap(call.params[n..], ParamMap(call.params[..n], map[])) == ToolOf(call).input
    ensures ToolOf(call) == ToolUse(Strip(call.name), ToolOf(call).input)
  {
    hide ParamMap, WellFormedParam, Strip;
    assert call.params[..n] + call.params[n..] == call.params;
    ParamMapConcat(call.params[..n], call.params[n..], map[]);
  }

  lemma DriveEnds(m: Machine, more: string, params: map<string, string>, gaps: string)
    requires m.state == PARSING_PARAMETERS && TakeParams(m) == Outcome(m.(buffer := more, params := params), gaps, [])
    requires CallIsOver(more) && SplitAtBullet(more) == (more, "")
    ensures Drive(m) == Outcome(Machine(TEXT, "", m.name, params), gaps + more, [ToolUse(m.name, params)])
  {
    IdleText(m.(params := params));
    hide TakeParams, CallIsOver, SplitAtBullet, FuncSearch;
    assert m.(buffer := more, params := params).(state := TEXT, buffer := "") == m.(params := params).(state := TEXT, buffer := "");
  }

  /** The piece in which the call ends, when more follows. */
  lemma FeedPastEnd(call: Call, s: string, m: Machine, text: string, piece: string, more: string) returns (gaps: string)
    requires WellFormed(call) && After(call, s, m, text) && s + piece == CallText(call) + more
    requires NoControl(CallText(call) + more) && |s| <= |CallText(call)| && Aside(more) && more != ""
    ensures FeedMachine(m, piece) == EndOutcome(call, gaps, more) && text + gaps == GapsOf(call.params)
  {
    var n := WhereAfter(call, s, m, text);
    hide *;
    FeedNoSentinel(call, s, m, text, piece, more);
    FeedIsDrive(m, piece);
    var m' := m.(buffer := m.buffer + piece);
    if |s| < |Header(call)| {
      WholeCall(call, s, m, text, piece, more);
      DriveHeaderToEnd(call, m', more);
      gaps := GapsOf(call.params);
      assert "" + gaps == gaps;
    } else {
      PartOfCall(call, s, m, text, piece, more, n);
      DriveToEnd(call, n, m', more);
      gaps := GapsOf(call.params[n..]);
      GapsSplit(call, n);
    }
  }

  lemma WhereAfter(call: Call, s: string, m: Machine, text: string) returns (n: nat)
    requires After(call, s, m, text)
    ensures |s| < |Header(call)| ==> m.state != PARSING_PARAMETERS
    ensures |s| >= |Header(call)| ==>
              && CompletedTo(call, s, m, n, text) && n <= |call.params| && m.params == ParamMap(call.params[..n], map[])
              && m.state == PARSING_PARAMETERS && m.name == Strip(call.name) && text == GapsOf(call.params[..n])
  {
    hide ParamMap, GapsOf, ParamsText, Strip;
    if |s| >= |Header(call)| {
      assert |Header(call)| > 0;
      n :| CompletedTo(call, s, m, n, text);
    } else {
      n := 0;
    }
  }

  lemma GapsSplit(call: Call, n: nat)
    requires n <= |call.params|
    ensures GapsOf(call.params[..n]) + GapsOf(call.params[n..]) == GapsOf(call.params)
  {
    hide GapsOf;
    assert call.params[..n] + call.params[n..] == call.params;
    GapsConcat(call.params[..n], call.params[n..]);
  }

  lemma WholeCall(call: Call, s: string, m: Machine, text: string, piece: string, more: string)
    requires After(call, s, m, text) && s + piece == CallText(call) + more && |s| < |Header(call)|
    ensures m.buffer + piece == Header(call) + (ParamsText(call.params) + more) && text == ""
    ensures m.state == if s == "" then TEXT else MATCHING_FUNCTION
  {
    hide Header, ParamsText;
    assert m.buffer == s;
  }

  lemma PartOfCall(call: Call, s: string, m: Machine, text: string, piece: string, more: string, n: nat)
    requires WellFormed(call) && CompletedTo(call, s, m, n, text) && s + piece == CallText(call) + more
    ensures m.buffer + piece == ParamsText(call.params[n..]) + more
  {
    CallSplits(call, n);
    hide Header, ParamsText, ParamMap, GapsOf, CutAt, WellFormed, CallText;
    CutFront(Header(call), ParamsText(call.params[..n]), ParamsText(call.params[n..]), m.buffer, piece, more, s, CallText(call));
  }

  lemma CutFront(head: string, front: string, back: string, buffer: string, piece: string, more: string, s: string, whole: string)
    requires s == head + front + buffer && whole == head + (front + back) && s + piece == whole + more
    ensures buffer + piece == back + more
  {
    var k := |head + front|;
    assert (s + piece)[k..] == buffer + piece;
    assert (whole + more)[k..] == back + more;
  }

  lemma DriveHeaderToEnd(call: Call, m: Machine, more: string)
    requires WellFormed(call) && Aside(more) && more != "" && m.state != PARSING_PARAMETERS
    requires m.buffer == Header(call) + (ParamsText(call.params) + more)
    ensures Drive(m) == EndOutcome(call, GapsOf(call.params), more)
  {
    var rest := ParamsText(call.params) + more;
    assert m.buffer[0] == Header(call)[0] == BULLET;
    assert call.params[..0] == [] && call.params[0..] == call.params && ParamMap([], map[]) == map[];
    FoundIs(call, rest);
    NoneBefore(m.buffer);
    assert "" + m.buffer == m.buffer;
    hide *;
    if m.state == TEXT { DriveBullet(m); }
    SkipsToHeader(call, m.(state := MATCHING_FUNCTION), "", rest);
    DriveToEnd(call, 0, Found(call, rest), more);
  }

  /** Text that is held is held for good. */
  lemma {:induction false} FeedHeld(m: Machine, pieces: seq<string>)
    requires m.state == PARSING_PARAMETERS && m.buffer != "" && LooksLikeTag(m.buffer) && Aside(m.buffer + Concat(pieces))
    ensures FeedPieces(m, pieces) == Outcome(m.(buffer := m.buffer + Concat(pieces)), "", [])
    decreases |pieces|
  {
    hide FeedMachine, LooksLikeTag, Aside;
    if pieces == [] {
      assert m.buffer + "" == m.buffer;
    } else {
      var (held, rest) := (m.buffer + pieces[0], Concat(pieces[1..]));
      ConcatAssoc(m.buffer, pieces[0], rest);
      AsideParts(held, rest);
      TagGrows(m.buffer, pieces[0]);
      HoldOne(m, pieces[0]);
      FeedHeld(m.(buffer := held), pieces[1..]);
    }
  }

  lemma HoldOne(m: Machine, piece: string)
    requires m.state == PARSING_PARAMETERS && m.buffer + piece != "" && LooksLikeTag(m.buffer + piece) && Aside(m.buffer + piece)
    ensures FeedMachine(m, piece) == Outcome(m.(buffer := m.buffer + piece), "", [])
  {
    var m' := m.(buffer := m.buffer + piece);
    StripNothing(m'.buffer);
    AsideWaits(m'.buffer);
    TakeNone(m');
    hide *;
    FeedIsDrive(m, piece);
    DriveHolds(m', m'.buffer, m'.params, "");
  }

  lemma FlushHeld(m: Machine)
    requires m.state == PARSING_PARAMETERS && Aside(m.buffer) && m.buffer != ""
    ensures FlushMachine(m).1 == [ToolUse(m.name, m.params)]
  {
    StripNothing(m.buffer);
    AsideWaits(m.buffer);
  }

  /** Text that begins like a tag, right after the parameters: nothing of it is released, nor will it be. */
  lemma AngleTextHeld(m: Machine, text: string, pieces: seq<string>)
    requires m.state == PARSING_PARAMETERS && m.buffer == "" && LooksLikeTag(text) && Aside(text + Concat(pieces))
    ensures var o := FeedPieces(m, [text] + pieces);
            o.text == "" && o.tools == [] && FlushMachine(o.m).1 == [ToolUse(m.name, m.params)]
  {
    RStripIsPrefix(text[SkipSpaces(text, 0)..]);
    assert text != "" && "" + text == text;
    AsideParts(text, Concat(pieces));
    hide *;
    HoldOne(m, text);
    FeedHeld(m.(buffer := text), pieces);
    FlushHeld(m.(buffer := text + Concat(pieces)));
    FeedFirst(m, text, pieces);
    BeforeNothing(FeedPieces(m.(buffer := text), pieces));
  }

  /** The text after the call, or none of it if its first part begins like a tag. */
  function ShownAfter(more: string, first: string): string {
    if LooksLikeTag(first) then "" else more
  }

  /**
   * Text after a call, in any pieces that do not cut the call short: one tool
   * with all parameters, and the text is released whole, after that between
   * the tags, exactly if the part of it that comes first does not begin like a
   * tag; else nothing of it ever is.
   */
  lemma TextAfterCall(call: Call, more: string, pieces: seq<string>)
    requires WellFormed(call) && Aside(more) && more != "" && Concat(pieces) == CallText(call) + more
    requires NoControl(CallText(call) + more) && CutsWell(call, "", pieces)
    ensures var (o, first) := (FeedPieces(START, pieces), Beyond(|CallText(call)|, pieces));
            && o.tools + FlushMachine(o.m).1 == [ToolOf(call)] && first != [] && EndsAs(o, LooksLikeTag(first[0]))
            && o.text == GapsOf(call.params) + ShownAfter(more, first[0])
            && (o.text == GapsOf(call.params) + more <==> !LooksLikeTag(first[0]))
  {
    hide *;
    var text := FeedPieces(START, pieces).text;
    assert "" + Concat(pieces) == Concat(pieces) && "" + text == text && |""| == 0;
    AfterAtFirst(call);
    FeedThrough(call, "", START, "", more, pieces);
    ShownExactly(GapsOf(call.params), more, Beyond(|CallText(call)|, pieces)[0]);
  }

  lemma ShownExactly(gaps: string, more: string, first: string)
    requires more != ""
    ensures gaps + ShownAfter(more, first) == gaps + more <==> !LooksLikeTag(first)
  {
    hide LooksLikeTag;
    assert |gaps + more| > |gaps + ""|;
  }

  lemma {:induction false} FeedThrough(call: Call, s: string, m: Machine, text: string, more: string, pieces: seq<string>)
    requires WellFormed(call) && After(call, s, m, text) && Aside(more) && more != "" && NoControl(CallText(call) + more)
    requires s + Concat(pieces) == CallText(call) + more && |s| <= |CallText(call)| && CutsWell(call, s, pieces)
    ensures var (o, first) := (FeedPieces(m, pieces), Beyond(|CallText(call)| - |s|, pieces));
            && o.tools + FlushMachine(o.m).1 == [ToolOf(call)] && first != [] && EndsAs(o, LooksLikeTag(first[0]))
            && text + o.text == GapsOf(call.params) + ShownAfter(more, first[0])
    decreases |pieces|
  {
    hide *;
    SomePieces(CallText(call), s, more, pieces);
    CutsWellNext(call, s, pieces);
    BeyondNext(|CallText(call)| - |s|, pieces);
    var (t, o) := (s + pieces[0], FeedMachine(m, pieces[0]));
    if |t| <= |CallText(call)| {
      PrefixOf(t, Concat(pieces[1..]), CallText(call), more);
      NotAtStart(call, t, pieces[1..]);
      FeedPrefix(call, s, m, text, pieces[0]);
      FedWell(call, t, o, text);
      FeedThrough(call, t, o.m, text + o.text, more, pieces[1..]);
      FeedFirst(m, pieces[0], pieces[1..]);
      FedBefore(text, o, FeedPieces(o.m, pieces[1..]));
      EndsAsWell(o, FeedPieces(o.m, pieces[1..]), LooksLikeTag(Beyond(|CallText(call)| - |s|, pieces)[0]));
    } else {
      PieceBeyond(s, pieces[0], |CallText(call)|);
      PastEnd(call, s, m, text, more, pieces);
    }
  }

  lemma EndsAsWell(o: Outcome, rest: Outcome, held: bool)
    requires o.tools == [] && EndsAs(rest, held)
    ensures EndsAs(Before(o.text, o.tools, rest), held)
  {
  }

  lemma SomePieces(whole: string, s: string, more: string, pieces: seq<string>)
    requires s + Concat(pieces) == whole + more && |s| <= |whole| && more != ""
    ensures pieces != [] && pieces == [pieces[0]] + pieces[1..]
  {
    assert pieces == [] ==> |s + Concat(pieces)| == |s|;
  }

  lemma BeyondNext(n: nat, pieces: seq<string>)
    requires pieces != []
    ensures Beyond(n, pieces) ==
              if |pieces[0]| <= n then Beyond(n - |pieces[0]|, pieces[1..]) else [pieces[0][n..]] + pieces[1..]
  {
  }

  lemma PrefixOf(t: string, back: string, whole: string, more: string)
    requires t + back == whole + more && |t| <= |whole|
    ensures t <= whole
  {
    assert t == (t + back)[..|t|] == (whole + more)[..|t|];
  }

  lemma PieceBeyond(s: string, piece: string, n: nat)
    requires |s| <= n <= |s + piece|
    ensures piece[n - |s|..] == (s + piece)[n..]
  {
  }

  lemma FedBefore(text: string, o: Outcome, rest: Outcome)
    requires o.tools == []
    ensures var whole := Before(o.text, o.tools, rest);
            whole.m == rest.m && whole.tools == rest.tools && text + whole.text == text + o.text + rest.text
  {
    assert [] + rest.tools == rest.tools;
    assert text + (o.text + rest.text) == text + o.text + rest.text;
  }

  lemma PastEnd(call: Call, s: string, m: Machine, text: string, more: string, pieces: seq<string>)
    requires WellFormed(call) && After(call, s, m, text) && Aside(more) && NoControl(CallText(call) + more)
    requires pieces != [] && s + pieces[0] + Concat(pieces[1..]) == CallText(call) + more
    requires |s| <= |CallText(call)| < |s + pieces[0]|
    ensures var (o, first) := (FeedPieces(m, pieces), (s + pieces[0])[|CallText(call)|..]);
            && o.tools + FlushMachine(o.m).1 == [ToolOf(call)] && EndsAs(o, LooksLikeTag(first))
            && text + o.text == GapsOf(call.params) + ShownAfter(more, first)
  {
    hide *;
    var (t, rest) := (s + pieces[0], pieces[1..]);
    var front := t[|CallText(call)|..];
    SplitMore(CallText(call), more, t, Concat(rest), front);
    assert pieces == [pieces[0]] + rest;
    PastEndAt(call, s, m, text, more, pieces[0], front, rest);
  }

  lemma PastEndAt(call: Call, s: string, m: Machine, text: string, more: string, piece: string, front: string, rest: seq<string>)
    requires WellFormed(call) && After(call, s, m, text) && Aside(more) && NoControl(CallText(call) + more)
    requires s + piece == CallText(call) + front && |s| <= |CallText(call)| && front != "" && front + Concat(rest) == more
    ensures var o := FeedPieces(m, [piece] + rest);
            && o.tools + FlushMachine(o.m).1 == [ToolOf(call)] && EndsAs(o, LooksLikeTag(front))
            && text + o.text == GapsOf(call.params) + ShownAfter(more, front)
  {
    hide *;
    var back := Concat(rest);
    FrontNoControlOf(CallText(call), front, back, more);
    AsidePartsOf(more, front, back);
    var gaps := FeedPastEnd(call, s, m, text, piece, front);
    var e := FeedMachine(m, piece);
    AfterEnd(call, gaps, front, rest, e);
    FeedFirst(m, piece, rest);
    EndText(call, text, gaps, more, front, back, FeedPieces(m, [piece] + rest), e, FeedPieces(e.m, rest));
  }

  lemma FrontNoControlOf(whole: string, front: string, back: string, more: string)
    requires front + back == more && NoControl(whole + more)
    ensures NoControl(whole + front)
  {
    hide *;
    assert "" + (whole + front) + back == whole + more by { assert whole + (front + back) == whole + front + back; }
    NoControlInPart("", whole + front, back);
  }

  lemma AsidePartsOf(more: string, front: string, back: string)
    requires Aside(more) && front + back == more
    ensures Aside(front) && Aside(back)
  {
    AsideParts(front, back);
  }

  /** The tool is out and the parser idle, or both are still to come. */
  predicate EndsAs(o: Outcome, held: bool) {
    if held then o.tools == [] else FlushMachine(o.m).1 == [] && o.m.state == TEXT && o.m.buffer == ""
  }

  /** Once the call has ended, or its end is held, the rest goes the same way. */
  lemma AfterEnd(call: Call, gaps: string, front: string, rest: seq<string>, e: Outcome)
    requires e == EndOutcome(call, gaps, front) && front != "" && Aside(front + Concat(rest))
    ensures var r := FeedPieces(e.m, rest);
            && r.text == ShownAfter(Concat(rest), front) && e.text == gaps + ShownAfter(front, front)
            && e.tools + r.tools + FlushMachine(r.m).1 == [ToolOf(call)]
            && EndsAs(Before(e.text, e.tools, r), LooksLikeTag(front))
  {
    var back := Concat(rest);
    AsideParts(front, back);
    hide FeedPieces, Concat, FlushMachine, LooksLikeTag, Strip, ParamMap;
    if LooksLikeTag(front) {
      FeedHeld(e.m, rest);
      FlushHeld(e.m.(buffer := front + back));
      assert gaps + "" == gaps;
    } else {
      FeedPlain(e.m, rest);
      FlushText(e.m);
    }
  }

  lemma EndText(call: Call, text: string, gaps: string, more: string, front: string, back: string,
                o: Outcome, e: Outcome, r: Outcome)
    requires o == Before(e.text, e.tools, r) && front + back == more && text + gaps == GapsOf(call.params)
    requires r.text == ShownAfter(back, front) && e.text == gaps + ShownAfter(front, front)
    requires e.tools + r.tools + FlushMachine(r.m).1 == [ToolOf(call)]
    ensures o.tools + FlushMachine(o.m).1 == [ToolOf(call)] && text + o.text == GapsOf(call.params) + ShownAfter(more, front)
  {
    hide FlushMachine, GapsOf, ToolOf, LooksLikeTag;
    if LooksLikeTag(front) {
      assert text + (gaps + "" + "") == text + gaps + "";
    } else {
      assert text + (gaps + front + back) == text + gaps + (front + back);
    }
  }

  lemma SplitMore(whole: string, more: string, t: string, back: string, front: string)
    requires t + back == whole + more && |whole| < |t| && front == t[|whole|..]
    ensures t == whole + front && front + back == more && front != ""
  {
    assert t[..|whole|] == (whole + more)[..|whole|] == whole;
    assert (t + back)[|whole|..] == front + back && (whole + more)[|whole|..] == more;
  }

  /** When the pieces cut the call short, the text after it is text after text, and released. */
  lemma TextAfterCutShort(call: Call, more: string, pieces: seq<string>) returns (n: nat)
    requires WellFormed(call) && Lacks(CallText(call) + more, '|') && Lacks(more, BULLET)
    requires Concat(pieces) == CallText(call) + more && !CutsWell(call, "", pieces)
    ensures n < |call.params|
    ensures var o := FeedPieces(START, pieces);
            && o.tools == [ToolUse(Strip(call.name), ParamMap(call.params[..n], map[]))] && FlushMachine(o.m).1 == []
            && o.text == GapsOf(call.params[..n]) + ParamsText(call.params[n..]) + more
  {
    var o := FeedPieces(START, pieces);
    assert "" + Concat(pieces) == Concat(pieces) && "" + (o.text + o.m.buffer) == o.text + o.m.buffer;
    assert !EndsInGap(call, "");
    AfterNothing(call, START, "");
    NoBarNoControl(CallText(call) + more);
    hide FeedPieces, CutsWell, WellFormed, Concat, After, CallText, NoControl, FlushMachine, GapsOf, ParamsText, ParamMap, EndsInGap;
    n := FeedBadly(call, "", START, "", more, pieces);
    NoBarLeft(call, n, more, o);
    assert o.text + "" == o.text;
  }

  lemma NoBarLeft(call: Call, n: nat, more: string, o: Outcome)
    requires WellFormed(call) && n <= |call.params| && Lacks(CallText(call) + more, '|')
    requires o.text + o.m.buffer == GapsOf(call.params[..n]) + ParamsText(call.params[n..]) + more
    requires o.m.buffer == "" || CONTROL_OPEN <= o.m.buffer
    ensures o.m.buffer == ""
  {
    CallSplits(call, n);
    hide WellFormed, CallText;
    var (ps, qs) := (call.params[..n], call.params[n..]);
    LacksBoth(CallText(call), more, '|');
    LacksBoth(Header(call), ParamsText(ps) + ParamsText(qs), '|');
    LacksBoth(ParamsText(ps), ParamsText(qs), '|');
    GapsLack(ps, '|');
    LacksBoth(GapsOf(ps), ParamsText(qs), '|');
    LacksBoth(GapsOf(ps) + ParamsText(qs), more, '|');
    LacksBoth(o.text, o.m.buffer, '|');
    hide Header, ParamsText, GapsOf;
    if CONTROL_OPEN <= o.m.buffer { BarInSentinel(o.m.buffer); }
  }

  lemma BarInSentinel(s: string)
    requires CONTROL_OPEN <= s
    ensures !Lacks(s, '|')
  {
    assert s[1] == '|';
  }

  lemma {:induction false} GapsLack(ps: seq<Param>, c: char)
    requires Lacks(ParamsText(ps), c)
    ensures Lacks(GapsOf(ps), c)
  {
    if ps != [] {
      ParamsTextHead(ps);
      LacksBoth(ParamText(ps[0]), ParamsText(ps[1..]), c);
      LacksBoth(ps[0].gap, TagText(ps[0]), c);
      GapsLack(ps[1..], c);
      LacksBoth(ps[0].gap, GapsOf(ps[1..]), c);
      hide ParamsText, TagText;
    }
  }

  // ----- Text on both sides -----

  /**
   * Ordinary text before and after a call, in any pieces that do not cut the
   * call short: the call is recovered, and the two conditions are all there is
   * to what is lost.
   */
  lemma TextAroundCall(call: Call, pre: string, more: string, pieces: seq<string>)
    requires HasCall(call, pre, ParamsText(call.params) + more, pieces) && Aside(more)
    requires CutsWell(call, "", Beyond(|pre|, pieces))
    ensures var (o, before, first) :=
              (FeedPieces(START, pieces), Earlier(|pre| + |Header(call)|, pieces), Beyond(|pre| + |CallText(call)|, pieces));
            && o.tools + FlushMachine(o.m).1 == [ToolOf(call)]
            && (more != "" ==> first != [] && EndsAs(o, LooksLikeTag(first[0])))
            && o.text == ShownBefore(pre, before) + (GapsOf(call.params) + if more == "" then "" else ShownAfter(more, first[0]))
  {
    hide *;
    var (alone, shown) := (Beyond(|pre|, pieces), ShownBefore(pre, Earlier(|pre| + |Header(call)|, pieces)));
    TextBeforeCall(call, pre, ParamsText(call.params) + more, pieces);
    CallIsAlone(call, pre, more, pieces);
    BeyondTwice(|pre|, |CallText(call)|, pieces);
    TextAfterCallOrNone(call, more, alone);
    BeforeIs(shown, FeedPieces(START, alone));
    if more != "" {
      EndsAsBefore(shown, FeedPieces(START, alone), LooksLikeTag(Beyond(|CallText(call)|, alone)[0]));
    }
  }

  lemma EndsAsBefore(text: string, rest: Outcome, held: bool)
    requires EndsAs(rest, held)
    ensures EndsAs(Before(text, [], rest), held)
  {
    assert [] + rest.tools == rest.tools;
  }

  lemma TextAfterCallOrNone(call: Call, more: string, pieces: seq<string>)
    requires WellFormed(call) && Aside(more) && Concat(pieces) == CallText(call) + more
    requires NoControl(CallText(call) + more) && CutsWell(call, "", pieces)
    ensures var (o, first) := (FeedPieces(START, pieces), Beyond(|CallText(call)|, pieces));
            && o.tools + FlushMachine(o.m).1 == [ToolOf(call)]
            && (more != "" ==> first != [] && EndsAs(o, LooksLikeTag(first[0])))
            && o.text == GapsOf(call.params) + if more == "" then "" else ShownAfter(more, first[0])
  {
    hide *;
    if more == "" {
      CallAlone(call, pieces);
    } else {
      TextAfterCall(call, more, pieces);
    }
  }

  lemma CallAlone(call: Call, pieces: seq<string>)
    requires WellFormed(call) && Concat(pieces) == CallText(call) + "" && CutsWell(call, "", pieces)
    ensures var o := FeedPieces(START, pieces);
            o.text == GapsOf(call.params) + "" && o.tools + FlushMachine(o.m).1 == [ToolOf(call)]
  {
    hide *;
    assert CallText(call) + "" == CallText(call) && GapsOf(call.params) + "" == GapsOf(call.params);
    CallRecoveredExactly(call, pieces);
    RecoveredIs(call, FeedPieces(START, pieces));
  }

  lemma CallIsAlone(call: Call, pre: string, more: string, pieces: seq<string>)
    requires HasCall(call, pre, ParamsText(call.params) + more, pieces)
    ensures WellFormed(call) && Concat(Beyond(|pre|, pieces)) == CallText(call) + more && NoControl(CallText(call) + more)
  {
    AloneHasCall(call, pre, ParamsText(call.params) + more, pieces);
    hide Concat, Beyond, NoControl, NoHeaderBefore, WellFormed, Header, ParamsText;
    assert CallText(call) + more == Header(call) + (ParamsText(call.params) + more);
  }

  lemma RecoveredIs(call: Call, o: Outcome)
    requires Recovered(call, o)
    ensures o.text == GapsOf(call.params) && o.tools + FlushMachine(o.m).1 == [ToolOf(call)]
  {
  }

  lemma BeforeIs(a: string, o: Outcome)
    ensures Before(a, [], o) == Outcome(o.m, a + o.text, o.tools)
  {
    assert [] + o.tools == o.tools;
  }

  lemma CallIsThere(call: Call, pre: string, more: string, pieces: seq<string>)
    requires WellFormed(call) && Concat(pieces) == pre + (CallText(call) + more)
    requires NoControl(Concat(pieces)) && NoHeaderBefore(Concat(pieces), |pre|)
    ensures HasCall(call, pre, ParamsText(call.params) + more, pieces)
  {
    hide Concat, NoControl, NoHeaderBefore, WellFormed, Header, ParamsText;
    assert CallText(call) + more == Header(call) + (ParamsText(call.params) + more);
  }

  /** A call at the end is handed out by the flush. */
  lemma LastCall(call: Call, pre: string, pieces: seq<string>)
    requires WellFormed(call) && Concat(pieces) == pre + CallText(call) && CutsWell(call, "", Beyond(|pre|, pieces))
    requires NoControl(Concat(pieces)) && NoHeaderBefore(Concat(pieces), |pre|)
    ensures var (o, before) := (FeedPieces(START, pieces), Earlier(|pre| + |Header(call)|, pieces));
            && o.tools == [] && FlushMachine(o.m).1 == [ToolOf(call)]
            && o.text == ShownBefore(pre, before) + GapsOf(call.params)
  {
    hide *;
    var alone := Beyond(|pre|, pieces);
    assert CallText(call) + "" == CallText(call);
    CallIsThere(call, pre, "", pieces);
    TextBeforeCall(call, pre, ParamsText(call.params) + "", pieces);
    CallIsAlone(call, pre, "", pieces);
    CallAloneFed(call, alone);
    BeforeIs(ShownBefore(pre, Earlier(|pre| + |Header(call)|, pieces)), FeedPieces(START, alone));
  }

  lemma CallAloneFed(call: Call, pieces: seq<string>)
    requires WellFormed(call) && Concat(pieces) == CallText(call) && CutsWell(call, "", pieces)
    ensures var o := FeedPieces(START, pieces);
            o.tools == [] && FlushMachine(o.m).1 == [ToolOf(call)] && o.text == GapsOf(call.params)
  {
    hide *;
    var o := FeedPieces(START, pieces);
    assert "" + Concat(pieces) == CallText(call) && "" + o.text == o.text;
    AfterAtFirst(call);
    FeedWell(call, "", START, "", pieces);
    CallFlushed(call, o.m, o.text);
  }

  lemma AfterAtFirst(call: Call)
    ensures After(call, "", START, "")
  {
  }

  /** Without bullets, all text before the call is shown. */
  lemma NoBulletShown(pre: string, before: seq<string>)
    requires Lacks(pre, BULLET)
    ensures ShownBefore(pre, before) == pre
  {
    hide Concat, Carried, IndexOf;
    assert forall k: nat :: FirstBullet(pre, k) == |pre|;
    assert pre[..|pre|] == pre;
  }
}
