/**
 * The incremental parser that separates `<think>...</think>` reasoning from text
 * (providers/common/think_parser.py), proved against a one-shot scanner.
 */
module ThinkParser {
  import opened Text

  const OPEN_TAG := "<think>"
  const CLOSE_TAG := "</think>"

  datatype ContentType = TEXT | THINKING

  datatype ContentChunk = ContentChunk(kind: ContentType, content: string)

  /** One character of output together with the kind of block it belongs to. */
  datatype TypedChar = TypedChar(kind: ContentType, c: char)

  function Typed(kind: ContentType, s: string): (t: seq<TypedChar>)
    ensures |t| == |s|
  {
    seq(|s|, i requires 0 <= i < |s| => TypedChar(kind, s[i]))
  }

  function Flat(chunks: seq<ContentChunk>): seq<TypedChar> {
    if chunks == [] then [] else Typed(chunks[0].kind, chunks[0].content) + Flat(chunks[1..])
  }

  function KindOf(inside: bool): ContentType {
    if inside then THINKING else TEXT
  }

  // ----- The specification: one left-to-right pass over the whole input -----

  /** A tag that the scanner recognises in the given mode. */
  predicate IsTag(tag: string, inside: bool) {
    tag == CLOSE_TAG || (tag == OPEN_TAG && !inside)
  }

  /**
   * The whole input is known: at each position, drop a tag that starts there
   * (and switch mode), otherwise keep the character with the current kind.
   * Outside a block a closing tag is an orphan and is dropped too.
   */
  function Scan(s: string, inside: bool): seq<TypedChar>
    decreases |s|
  {
    if s == "" then []
    else if CLOSE_TAG <= s then Scan(s[|CLOSE_TAG|..], false)
    else if !inside && OPEN_TAG <= s then Scan(s[|OPEN_TAG|..], true)
    else [TypedChar(KindOf(inside), s[0])] + Scan(s[1..], inside)
  }

  /** No tag starts within the first n characters of s. */
  ghost predicate NoTagBefore(s: string, inside: bool, n: nat) {
    forall tag: string, i :: IsTag(tag, inside) && 0 <= i < n ==> !OccursAt(s, tag, i)
  }

  lemma OccursInTail(s: string, tag: string, i: nat)
    requires s != ""
    ensures OccursAt(s[1..], tag, i) <==> OccursAt(s, tag, i + 1)
  {
  }

  lemma ScanChar(s: string, inside: bool)
    requires s != "" && !OccursAt(s, CLOSE_TAG, 0) && (!inside ==> !OccursAt(s, OPEN_TAG, 0))
    ensures Scan(s, inside) == [TypedChar(KindOf(inside), s[0])] + Scan(s[1..], inside)
  {
  }

  lemma {:induction false} ScanPlain(a: string, b: string, inside: bool)
    requires NoTagBefore(a + b, inside, |a|)
    ensures Scan(a + b, inside) == Typed(KindOf(inside), a) + Scan(b, inside)
  {
    var s := a + b;
    if a == "" {
      assert s == b;
    } else {
      assert IsTag(CLOSE_TAG, inside) && (!inside ==> IsTag(OPEN_TAG, inside));
      ScanChar(s, inside);
      assert s[1..] == a[1..] + b;
      hide Scan;
      forall tag: string, i | IsTag(tag, inside) && 0 <= i < |a[1..]|
        ensures !OccursAt(s[1..], tag, i)
      {
        OccursInTail(s, tag, i);
      }
      ScanPlain(a[1..], b, inside);
      assert Typed(KindOf(inside), a) == [TypedChar(KindOf(inside), a[0])] + Typed(KindOf(inside), a[1..]);
      hide *;
      ConcatAssoc([TypedChar(KindOf(inside), a[0])], Typed(KindOf(inside), a[1..]), Scan(b, inside));
    }
  }

  /** Dropping the tag at the head of the input. */
  lemma ScanTag(s: string, inside: bool, tag: string, rest: string)
    requires s == tag + rest && IsTag(tag, inside)
    ensures Scan(s, inside) == Scan(rest, tag == OPEN_TAG)
  {
    assert s[|tag|..] == rest;
    assert tag <= s;
    assert tag == OPEN_TAG ==> s[1] == 't';
  }

  /** A think block: the text before it, its content as thinking, and then text again. */
  lemma BlockIsScanned(a: string, t: string, b: string)
    requires var s := a + "<think>" + t + "</think>" + b;
             && (forall i :: 0 <= i < |a| ==> !OccursAt(s, "<think>", i) && !OccursAt(s, "</think>", i))
             && forall i :: |a| + 7 <= i < |a| + 7 + |t| ==> !OccursAt(s, "</think>", i)
    ensures Scan(a + "<think>" + t + "</think>" + b, false) == Typed(TEXT, a) + (Typed(THINKING, t) + Scan(b, false))
  {
    var (inner, rest) := (t + ("</think>" + b), "</think>" + b);
    var s := a + "<think>" + t + "</think>" + b;
    assert s == a + ("<think>" + inner);
    forall i | 0 <= i < |t| ensures !OccursAt(inner, "</think>", i) {
      assert !OccursAt(s, "</think>", |a| + 7 + i);
      assert i + 8 <= |inner| ==> s[|a| + 7 + i..|a| + 7 + i + 8] == inner[i..i + 8];
    }
    hide Scan, OccursAt;
    assert NoTagBefore(s, false, |a|) && NoTagBefore(inner, true, |t|);
    ScanPlain(a, "<think>" + inner, false);
    ScanTag("<think>" + inner, false, OPEN_TAG, inner);
    ScanPlain(t, rest, true);
    ScanTag(rest, true, CLOSE_TAG, b);
  }

  /** A closing tag without an opening one is dropped. */
  lemma OrphanIsDropped(a: string, b: string)
    requires var s := a + "</think>" + b;
             forall i :: 0 <= i < |a| ==> !OccursAt(s, "<think>", i) && !OccursAt(s, "</think>", i)
    ensures Scan(a + "</think>" + b, false) == Typed(TEXT, a) + Scan(b, false)
  {
    assert a + "</think>" + b == a + ("</think>" + b);
    hide Scan, OccursAt;
    assert NoTagBefore(a + ("</think>" + b), false, |a|);
    ScanPlain(a, "</think>" + b, false);
    ScanTag("</think>" + b, false, CLOSE_TAG, b);
  }

  lemma NothingScanned(inside: bool)
    ensures Scan("", inside) == []
  {
  }

  lemma NoTagBeforeHere(s: string, inside: bool, n: nat)
    requires forall i :: 0 <= i < n ==> (!inside ==> !OccursAt(s, "<think>", i)) && !OccursAt(s, "</think>", i)
    ensures NoTagBefore(s, inside, n)
  {
  }

  /** A block that is not closed is thinking to the end. */
  lemma OpenBlockIsScanned(a: string, t: string)
    requires var s := a + "<think>" + t;
             && (forall i :: 0 <= i < |a| ==> !OccursAt(s, "<think>", i) && !OccursAt(s, "</think>", i))
             && forall i :: 0 <= i < |t| ==> !OccursAt(t, "</think>", i)
    ensures Scan(a + "<think>" + t, false) == Typed(TEXT, a) + Typed(THINKING, t)
  {
    NoTagBeforeHere(a + "<think>" + t, false, |a|);
    NoTagBeforeHere(t, true, |t|);
    hide *;
    ConcatAssoc(a, "<think>", t);
    ScanPlain(a, "<think>" + t, false);
    ScanTag("<think>" + t, false, OPEN_TAG, t);
    ThinkingToEnd(t);
  }

  lemma ThinkingToEnd(t: string)
    requires NoTagBefore(t, true, |t|)
    ensures Scan(t, true) == Typed(THINKING, t)
  {
    hide Scan, NoTagBefore;
    assert t + "" == t && Typed(THINKING, t) + [] == Typed(THINKING, t);
    ScanPlain(t, "", true);
    NothingScanned(true);
  }

  // ----- Tags cut in two by a chunk boundary -----

  /** buf ends with a proper, non-empty prefix of tag that starts at i. */
  predicate PendingAt(buf: string, tag: string, i: int) {
    0 <= i < |buf| && |buf| - i < |tag| && buf[i..] <= tag
  }

  /** A tag has exactly one '<', at its head, so only the last '<' can begin a cut tag. */
  lemma PendingIsLastBracket(buf: string, tag: string, i: int)
    requires tag == OPEN_TAG || tag == CLOSE_TAG
    requires PendingAt(buf, tag, i)
    ensures i == RFindChar(buf, '<')
  {
  }

  /** A tag in buf + more either lies in buf or is cut by the boundary. */
  lemma TagInExtension(buf: string, more: string, tag: string, i: int)
    requires 0 <= i < |buf| && OccursAt(buf + more, tag, i)
    ensures OccursAt(buf, tag, i) || PendingAt(buf, tag, i)
  {
  }

  /**
   * `out` has been emitted on the way from (s0, in0) to (s1, in1): whatever
   * text follows, scanning it after s0 gives `out` and then the scan after s1.
   */
  ghost predicate Advances(s0: string, in0: bool, out: seq<TypedChar>, s1: string, in1: bool) {
    forall more: string :: AdvancesOn(s0, in0, out, s1, in1, more)
  }

  ghost predicate AdvancesOn(s0: string, in0: bool, out: seq<TypedChar>, s1: string, in1: bool, more: string) {
    Scan(s0 + more, in0) == out + Scan(s1 + more, in1)
  }

  lemma AdvancesTrans(s0: string, in0: bool, o1: seq<TypedChar>, s1: string, in1: bool,
                      o2: seq<TypedChar>, s2: string, in2: bool)
    requires Advances(s0, in0, o1, s1, in1) && Advances(s1, in1, o2, s2, in2)
    ensures Advances(s0, in0, o1 + o2, s2, in2)
  {
    hide Scan;
    forall more: string
      ensures AdvancesOn(s0, in0, o1 + o2, s2, in2, more)
    {
      assert AdvancesOn(s0, in0, o1, s1, in1, more) && AdvancesOn(s1, in1, o2, s2, in2, more);
    }
  }

  /** Emit the first n characters; no tag can ever start among them. */
  lemma AdvanceEmit(s: string, inside: bool, n: nat)
    requires n <= |s|
    requires NoTagBefore(s, inside, n)
    requires forall tag: string, i :: IsTag(tag, inside) && 0 <= i < n ==> !PendingAt(s, tag, i)
    ensures Advances(s, inside, Typed(KindOf(inside), s[..n]), s[n..], inside)
  {
    forall more: string
      ensures AdvancesOn(s, inside, Typed(KindOf(inside), s[..n]), s[n..], inside, more)
    {
      assert s + more == s[..n] + (s[n..] + more);
      forall tag: string, i | IsTag(tag, inside) && 0 <= i < n
        ensures !OccursAt(s + more, tag, i)
      {
        if OccursAt(s + more, tag, i) { TagInExtension(s, more, tag, i); }
      }
      ScanPlain(s[..n], s[n..] + more, inside);
    }
  }

  /** Emit everything up to a trailing cut tag at the last '<'. */
  lemma AdvanceToCut(s: string, inside: bool, lastBracket: nat)
    requires lastBracket == RFindChar(s, '<')
    requires NoTagBefore(s, inside, |s|)
    ensures Advances(s, inside, Typed(KindOf(inside), s[..lastBracket]), s[lastBracket..], inside)
  {
    hide RFindChar, Scan;
    forall tag: string, i | IsTag(tag, inside) && PendingAt(s, tag, i)
      ensures i == lastBracket
    {
      PendingIsLastBracket(s, tag, i);
    }
    AdvanceEmit(s, inside, lastBracket);
  }

  /** Emit the whole buffer: no tag is cut at its end. */
  lemma AdvanceAll(s: string, inside: bool)
    requires NoTagBefore(s, inside, |s|)
    requires forall tag: string :: IsTag(tag, inside) ==> !PendingAt(s, tag, RFindChar(s, '<'))
    ensures Advances(s, inside, Typed(KindOf(inside), s), "", inside)
  {
    hide RFindChar, Scan, Advances, NoTagBefore;
    forall tag: string, i | IsTag(tag, inside) && 0 <= i < |s|
      ensures !PendingAt(s, tag, i)
    {
      if PendingAt(s, tag, i) { PendingIsLastBracket(s, tag, i); }
    }
    assert s[..|s|] == s && s[|s|..] == "";
    AdvanceEmit(s, inside, |s|);
  }

  /** Emit everything before the first tag, drop the tag and switch mode. */
  lemma AdvanceTag(s: string, inside: bool, tag: string, at: nat)
    requires IsTag(tag, inside) && OccursAt(s, tag, at)
    requires NoTagBefore(s, inside, at)
    ensures Advances(s, inside, Typed(KindOf(inside), s[..at]), s[at + |tag|..], tag == OPEN_TAG)
  {
    var pre, after, mode := Typed(KindOf(inside), s[..at]), s[at + |tag|..], tag == OPEN_TAG;
    forall more: string
      ensures AdvancesOn(s, inside, pre, after, mode, more)
    {
      var rest := after + more;
      assert s + more == s[..at] + (tag + rest);
      forall t: string, i | IsTag(t, inside) && 0 <= i < at
        ensures !OccursAt(s + more, t, i)
      {
        assert s[at] == tag[0] == '<';
        assert PendingAt(s, t, i) ==> i == RFindChar(s, '<') by {
          if PendingAt(s, t, i) { PendingIsLastBracket(s, t, i); }
        }
        if OccursAt(s + more, t, i) { TagInExtension(s, more, t, i); }
      }
      ScanPlain(s[..at], tag + rest, inside);
      ScanTag(tag + rest, inside, tag, rest);
    }
  }

  /** What may wait in the buffer between two feeds: nothing, or a cut tag. */
  predicate Waiting(buf: string, inside: bool) {
    buf == "" ||
    (|buf| < |CLOSE_TAG| && buf <= CLOSE_TAG) ||
    (!inside && |buf| < |OPEN_TAG| && buf <= OPEN_TAG)
  }

  /** At the end of the input a waiting cut tag is ordinary content. */
  lemma ScanWaiting(buf: string, inside: bool)
    requires Waiting(buf, inside)
    ensures Scan(buf, inside) == Typed(KindOf(inside), buf)
  {
    forall tag: string, i | IsTag(tag, inside) && 0 <= i < |buf|
      ensures !OccursAt(buf, tag, i)
    {
      assert tag[0] == '<';
      assert 0 < i ==> buf[i] != '<';
      assert |buf| > 1 ==> buf[1] == CLOSE_TAG[1] || buf[1] == OPEN_TAG[1];
      assert CLOSE_TAG[1] != OPEN_TAG[1];
    }
    assert buf + "" == buf;
    ScanPlain(buf, "", inside);
  }

  // ----- The parser -----

  class ThinkTagParser {
    var buffer: string
    var inThinkTag: bool

    ghost predicate Valid()
      reads this
    {
      Waiting(buffer, inThinkTag)
    }

    constructor ()
      ensures Valid() && buffer == "" && !inThinkTag
    {
      buffer := "";
      inThinkTag := false;
    }

    /**
     * Feeds one piece of content. The chunks returned are exactly what a scan
     * of everything seen so far can already decide: the scan of any
     * continuation starts with them and goes on from the new state.
     */
    method Feed(content: string) returns (chunks: seq<ContentChunk>)
      requires Valid()
      modifies this
      ensures Valid() && |buffer| <= 7
      ensures Advances(old(buffer) + content, old(inThinkTag), Flat(chunks), buffer, inThinkTag)
      ensures forall k :: 0 <= k < |chunks| ==> chunks[k].content != ""
    {
      buffer := buffer + content;
      chunks := [];
      ghost var s0, in0 := buffer, inThinkTag;
      while buffer != ""
        invariant Advances(s0, in0, Flat(chunks), buffer, inThinkTag)
        invariant forall k :: 0 <= k < |chunks| ==> chunks[k].content != ""
        decreases |buffer|
      {
        var prevLen := |buffer|;
        ghost var s1, in1 := buffer, inThinkTag;
        var chunk;
        if !inThinkTag {
          chunk := ParseOutsideThink();
        } else {
          chunk := ParseInsideThink();
        }
        AdvancesTrans(s0, in0, Flat(chunks), s1, in1, Emitted(chunk), buffer, inThinkTag);
        if chunk.Some? {
          FlatAppend(chunks, chunk.value);
          chunks := chunks + [chunk.value];
        } else {
          assert Flat(chunks) + Emitted(chunk) == Flat(chunks);
          if |buffer| == prevLen {
            // Only a cut tag is left
            break;
          }
        }
      }
    }

    method ParseOutsideThink() returns (chunk: Option<ContentChunk>)
      requires !inThinkTag && buffer != ""
      modifies this
      ensures Progress(old(buffer), chunk, buffer, inThinkTag)
      ensures Advances(old(buffer), old(inThinkTag), Emitted(chunk), buffer, inThinkTag)
    {
      hide Advances, Typed;
      ghost var s := buffer;
      var thinkStart := Find(buffer, OPEN_TAG);
      var orphanClose := Find(buffer, CLOSE_TAG);
      if orphanClose != -1 && (thinkStart == -1 || orphanClose < thinkStart) {
        // Orphan closing tag: strip it
        var preOrphan := buffer[..orphanClose];
        AdvanceTag(s, false, CLOSE_TAG, orphanClose);
        buffer := buffer[orphanClose + |CLOSE_TAG|..];
        chunk := if preOrphan != "" then Some(ContentChunk(TEXT, preOrphan)) else None;
        return;
      }
      if thinkStart == -1 {
        var lastBracket := RFindChar(buffer, '<');
        if lastBracket != -1 {
          var potentialTag := buffer[lastBracket..];
          var tagLen := |potentialTag|;
          if (tagLen < |OPEN_TAG| && potentialTag <= OPEN_TAG) ||
             (tagLen < |CLOSE_TAG| && potentialTag <= CLOSE_TAG) {
            AdvanceToCut(s, false, lastBracket);
            var emit := buffer[..lastBracket];
            buffer := buffer[lastBracket..];
            chunk := if emit != "" then Some(ContentChunk(TEXT, emit)) else None;
            return;
          }
        }
        AdvanceAll(s, false);
        var emit := buffer;
        buffer := "";
        chunk := Some(ContentChunk(TEXT, emit));
      } else {
        var preThink := buffer[..thinkStart];
        AdvanceTag(s, false, OPEN_TAG, thinkStart);
        buffer := buffer[thinkStart + |OPEN_TAG|..];
        inThinkTag := true;
        chunk := if preThink != "" then Some(ContentChunk(TEXT, preThink)) else None;
      }
    }

    method ParseInsideThink() returns (chunk: Option<ContentChunk>)
      requires inThinkTag && buffer != ""
      modifies this
      ensures Progress(old(buffer), chunk, buffer, inThinkTag)
      ensures Advances(old(buffer), old(inThinkTag), Emitted(chunk), buffer, inThinkTag)
    {
      hide Advances, Typed;
      ghost var s := buffer;
      var thinkEnd := Find(buffer, CLOSE_TAG);
      if thinkEnd == -1 {
        var lastBracket := RFindChar(buffer, '<');
        if lastBracket != -1 && |buffer| - lastBracket < |CLOSE_TAG| {
          var potentialTag := buffer[lastBracket..];
          if potentialTag <= CLOSE_TAG {
            AdvanceToCut(s, true, lastBracket);
            var emit := buffer[..lastBracket];
            buffer := buffer[lastBracket..];
            chunk := if emit != "" then Some(ContentChunk(THINKING, emit)) else None;
            return;
          }
        }
        AdvanceAll(s, true);
        var emit := buffer;
        buffer := "";
        chunk := Some(ContentChunk(THINKING, emit));
      } else {
        var thinkingContent := buffer[..thinkEnd];
        AdvanceTag(s, true, CLOSE_TAG, thinkEnd);
        buffer := buffer[thinkEnd + |CLOSE_TAG|..];
        inThinkTag := false;
        chunk := if thinkingContent != "" then Some(ContentChunk(THINKING, thinkingContent)) else None;
      }
    }

    /** Hands out what still waits; the mode is left as it is. */
    method Flush() returns (chunk: Option<ContentChunk>)
      requires Valid()
      modifies this
      ensures buffer == "" && inThinkTag == old(inThinkTag)
      ensures Emitted(chunk) == Scan(old(buffer), old(inThinkTag))
      ensures chunk.Some? ==> chunk.value.content == old(buffer) != ""
    {
      ScanWaiting(buffer, inThinkTag);
      if buffer != "" {
        chunk := Some(ContentChunk(KindOf(inThinkTag), buffer));
        buffer := "";
      } else {
        chunk := None;
      }
    }
  }

  function Emitted(chunk: Option<ContentChunk>): seq<TypedChar> {
    if chunk.Some? then Typed(chunk.value.kind, chunk.value.content) else []
  }

  /**
   * One parsing step shortens the buffer, or leaves in it only a cut tag. A
   * chunk is never empty, and comes with a shorter buffer.
   */
  ghost predicate Progress(before: string, chunk: Option<ContentChunk>, after: string, inside: bool) {
    && |after| <= |before|
    && (chunk.Some? ==> |after| < |before| && chunk.value.content != "")
    && (|after| == |before| ==> Waiting(after, inside))
  }

  lemma {:induction false} FlatAppend(chunks: seq<ContentChunk>, last: ContentChunk)
    ensures Flat(chunks + [last]) == Flat(chunks) + Typed(last.kind, last.content)
  {
    if chunks == [] {
    } else {
      FlatAppend(chunks[1..], last);
      assert (chunks + [last])[1..] == chunks[1..] + [last];
    }
  }

  // ----- Main result: the chunking does not matter -----

  /**
   * Any way of cutting the input into pieces, fed one after the other and then
   * flushed, gives the same typed characters as one scan of the whole input.
   */
  method {:induction false} ParsePieces(pieces: seq<string>) returns (chunks: seq<ContentChunk>)
    ensures Flat(chunks) == Scan(Concat(pieces), false)
    ensures forall k :: 0 <= k < |chunks| ==> chunks[k].content != ""
  {
    var parser := new ThinkTagParser();
    chunks := [];
    for n := 0 to |pieces|
      invariant parser.Valid()
      invariant Advances(Concat(pieces[..n]), false, Flat(chunks), parser.buffer, parser.inThinkTag)
      invariant forall k :: 0 <= k < |chunks| ==> chunks[k].content != ""
    {
      ghost var buf, mode := parser.buffer, parser.inThinkTag;
      var more := parser.Feed(pieces[n]);
      AdvancesAppend(Concat(pieces[..n]), false, Flat(chunks), buf, mode, pieces[n]);
      AdvancesTrans(Concat(pieces[..n]) + pieces[n], false, Flat(chunks), buf + pieces[n], mode,
                    Flat(more), parser.buffer, parser.inThinkTag);
      FlatConcat(chunks, more);
      assert pieces[..n + 1] == pieces[..n] + [pieces[n]];
      ConcatAppend(pieces[..n], pieces[n]);
      chunks := chunks + more;
    }
    ghost var s, buf := Concat(pieces), parser.buffer;
    assert pieces[..|pieces|] == pieces;
    assert AdvancesOn(s, false, Flat(chunks), buf, parser.inThinkTag, "");
    assert s + "" == s && buf + "" == buf;
    var last := parser.Flush();
    if last.Some? {
      FlatAppend(chunks, last.value);
      chunks := chunks + [last.value];
    }
  }

  lemma AdvancesAppend(s0: string, in0: bool, out: seq<TypedChar>, s1: string, in1: bool, piece: string)
    requires Advances(s0, in0, out, s1, in1)
    ensures Advances(s0 + piece, in0, out, s1 + piece, in1)
  {
    hide Scan;
    forall more: string
      ensures AdvancesOn(s0 + piece, in0, out, s1 + piece, in1, more)
    {
      assert AdvancesOn(s0, in0, out, s1, in1, piece + more);
      assert s0 + piece + more == s0 + (piece + more);
      assert s1 + piece + more == s1 + (piece + more);
    }
  }

  /** What waits may turn out to be a tag, of which nothing comes out. */
  lemma Completed(buf: string, inside: bool) returns (more: string)
    requires Waiting(buf, inside)
    ensures Scan(buf + more, inside) == []
  {
    if buf == "" {
      more := "";
    } else {
      var tag := if |buf| < |CLOSE_TAG| && buf <= CLOSE_TAG then CLOSE_TAG else OPEN_TAG;
      more := tag[|buf|..];
      assert buf + more == tag + "";
      ScanTag(tag + "", inside, tag, "");
    }
  }

  /** Whatever the pieces were, the parser has released all that the content so far determines, and no more. */
  lemma ReleasedIsUnique(content: string, out1: seq<TypedChar>, buf1: string, inside1: bool,
                         out2: seq<TypedChar>, buf2: string, inside2: bool)
    requires Advances(content, false, out1, buf1, inside1) && Waiting(buf1, inside1)
    requires Advances(content, false, out2, buf2, inside2) && Waiting(buf2, inside2)
    ensures out1 == out2
  {
    hide Scan, Waiting;
    ReleasesNoMore(content, out1, buf1, inside1, out2, buf2, inside2);
    ReleasesNoMore(content, out2, buf2, inside2, out1, buf1, inside1);
  }

  lemma ReleasesNoMore(content: string, out1: seq<TypedChar>, buf1: string, inside1: bool,
                       out2: seq<TypedChar>, buf2: string, inside2: bool)
    requires Advances(content, false, out1, buf1, inside1) && Waiting(buf1, inside1)
    requires Advances(content, false, out2, buf2, inside2)
    ensures out2 <= out1
  {
    hide Scan, Waiting;
    var more := Completed(buf1, inside1);
    assert AdvancesOn(content, false, out1, buf1, inside1, more) && AdvancesOn(content, false, out2, buf2, inside2, more);
    assert out1 + [] == out1;
  }

  lemma {:induction false} FlatConcat(a: seq<ContentChunk>, b: seq<ContentChunk>)
    ensures Flat(a + b) == Flat(a) + Flat(b)
  {
    if a == [] {
      assert a + b == b;
    } else {
      FlatConcat(a[1..], b);
      assert (a + b)[1..] == a[1..] + b;
      assert (a + b)[0] == a[0];
      hide Typed;
      ConcatAssoc(Typed(a[0].kind, a[0].content), Flat(a[1..]), Flat(b));
    }
  }
}
