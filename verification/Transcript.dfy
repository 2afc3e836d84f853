/**
 * Rendering a transcript within a length limit by dropping its oldest
 * segments (messaging/transcript.py, `TranscriptBuffer.render`).
 */
module Transcript {
  import opened Text

  /** The segments that rendered to something; a segment whose rendering raises is skipped. */
  function Rendered(segments: seq<Option<string>>): (r: seq<string>)
    ensures forall i :: 0 <= i < |r| ==> r[i] != ""
  {
    if segments == [] then []
    else
      var (earlier, last) := (Rendered(segments[..|segments| - 1]), segments[|segments| - 1]);
      if last.Some? && last.value != "" then earlier + [last.value] else earlier
  }

  /** They are those segments, each once and in their order. */
  lemma {:induction false} RenderedAre(segments: seq<Option<string>>) returns (at: seq<nat>)
    ensures |at| == |Rendered(segments)| && Increasing(at, |segments|)
    ensures forall k :: 0 <= k < |at| ==> segments[at[k]] == Some(Rendered(segments)[k])
    ensures forall i :: 0 <= i < |segments| ==> (i in at <==> segments[i].Some? && segments[i].value != "")
  {
    at := [];
    if segments != [] {
      var n := |segments| - 1;
      at := RenderedAre(segments[..n]);
      OneMoreAt(at, n);
      if segments[n].Some? && segments[n].value != "" { at := at + [n]; }
    }
  }

  /** The loop over the segments. */
  method RenderAll(segments: seq<Option<string>>) returns (rendered: seq<string>)
    ensures rendered == Rendered(segments)
  {
    rendered := [];
    for k := 0 to |segments|
      invariant rendered == Rendered(segments[..k])
    {
      assert segments[..k + 1][..k] == segments[..k];
      if segments[k].Some? && segments[k].value != "" {
        rendered := rendered + [segments[k].value];
      }
    }
    assert segments[..|segments|] == segments;
  }

  function StatusText(status: string): string {
    if status != "" then "\n\n" + status else ""
  }

  function Whole(parts: seq<string>, status: string): string {
    Join("\n", parts) + StatusText(status)
  }

  /** What is shown when older segments have been dropped. */
  function Marked(marker: string, parts: seq<string>, status: string): string {
    var body := Join("\n", parts);
    (if body != "" then marker + body else body) + StatusText(status)
  }

  function LStripNewlines(s: string): string {
    if s != "" && s[0] == '\n' then LStripNewlines(s[1..]) else s
  }

  /** The suffix that starts at segment k fits. */
  predicate Fits(marker: string, parts: seq<string>, status: string, limit: int, k: nat)
    requires k <= |parts|
  {
    |Marked(marker, parts[k..], status)| <= limit
  }

  /** Once a suffix fits, every shorter one does: the first that fits is the longest. */
  lemma ShorterFits(marker: string, parts: seq<string>, status: string, limit: int, k: nat)
    requires k + 1 < |parts| && (forall i :: 0 <= i < |parts| ==> parts[i] != "")
    requires Fits(marker, parts, status, limit, k)
    ensures Fits(marker, parts, status, limit, k + 1)
  {
  }

  /** What remains of the last segment when not even that fits. */
  function TailOnly(marker: string, last: string, status: string, budget: int): string
    requires 3 <= budget <= |last|
  {
    marker + ("..." + last[|last| - (budget - 3)..]) + StatusText(status)
  }

  /** k is the first suffix that fits, or there is none and k is the number of segments. */
  ghost predicate IsFirstFit(marker: string, parts: seq<string>, status: string, limit: int, k: nat) {
    && k <= |parts|
    && (forall j :: 0 <= j < k ==> !Fits(marker, parts, status, limit, j))
    && (k < |parts| ==> Fits(marker, parts, status, limit, k))
  }

  /** What is shown when no suffix fits: the end of the last segment, or the status with or without a marker. */
  function LastResort(marker: string, parts: seq<string>, status: string, limit: int): string
    requires parts != [] ==> |parts[|parts| - 1]| > Budget(marker, status, limit)
  {
    if parts == [] then status
    else if Budget(marker, status, limit) > 20 then TailOnly(marker, parts[|parts| - 1], status, Budget(marker, status, limit))
    else if |marker + LStripNewlines(StatusText(status))| <= limit then marker + LStripNewlines(StatusText(status))
    else status
  }

  function Budget(marker: string, status: string, limit: int): int {
    limit - |marker| - |StatusText(status)|
  }

  /** Drops the oldest segments until the marked rest fits. */
  method DropOldest(marker: string, rendered: seq<string>, status: string, limit: int) returns (dropped: nat)
    ensures IsFirstFit(marker, rendered, status, limit, dropped)
  {
    dropped := 0;
    while dropped < |rendered|
      invariant dropped <= |rendered|
      invariant forall k :: 0 <= k < dropped ==> !Fits(marker, rendered, status, limit, k)
    {
      var candidate := Marked(marker, rendered[dropped..], status);
      if |candidate| <= limit {
        return;
      }
      dropped := dropped + 1;
    }
  }

  /** The branch for a last segment within the budget is never taken, and a cut one always fits. */
  method ShowLast(marker: string, rendered: seq<string>, status: string, limit: int) returns (out: string)
    requires IsFirstFit(marker, rendered, status, limit, |rendered|)
    requires forall i :: 0 <= i < |rendered| ==> rendered[i] != ""
    ensures rendered != [] ==> |rendered[|rendered| - 1]| > Budget(marker, status, limit)
    ensures out == LastResort(marker, rendered, status, limit)
  {
    hide IsFirstFit, Fits, LStripNewlines, StatusText;
    if rendered == [] {
      return status;
    }
    var lastPart := rendered[|rendered| - 1];
    var budget := Budget(marker, status, limit);
    NoFitAtAll(marker, rendered, status, limit);
    if budget > 20 {
      var tail := if |lastPart| > budget then "..." + lastPart[|lastPart| - (budget - 3)..] else lastPart;
      out := marker + tail + StatusText(status);
      if |out| <= limit {
        return;
      }
    }
    out := marker + LStripNewlines(StatusText(status));
    if |out| > limit {
      out := status;
    }
  }

  /**
   * The whole transcript if it fits; else its longest marked suffix that
   * fits; else the end of the last segment, if there is room for it. The
   * result never exceeds the limit unless the status alone does, and it ends
   * with the status.
   */
  method Render(segments: seq<Option<string>>, marker: string, limit: int, status: string) returns (out: string, k: nat)
    ensures |out| <= limit || |out| <= |status|
    ensures status != "" && status[0] != '\n' ==> EndsWith(out, status)
    ensures IsSpelledOut(out, k, marker, Rendered(segments), status, limit)
  {
    hide Rendered, Fits, LStripNewlines, Join;
    var rendered := RenderAll(segments);
    k := 0;
    WholeEnds(rendered, status);
    if |Whole(rendered, status)| <= limit {
      out := Whole(rendered, status);
    } else {
      var dropped := DropOldest(marker, rendered, status, limit);
      k := dropped;
      if dropped < |rendered| {
        out := Marked(marker, rendered[dropped..], status);
        MarkedLaws(marker, rendered, status, limit, dropped);
      } else {
        out := ShowLast(marker, rendered, status, limit);
        LastResortLaws(marker, rendered, status, limit);
      }
    }
    assert IsRendering(out, k, marker, rendered, status, limit);
    hide *;
    SpelledOut(out, k, marker, rendered, status, limit);
  }

  /** The whole of the parts, their longest suffix that fits, or the last resort. */
  ghost predicate IsRendering(out: string, k: nat, marker: string, parts: seq<string>, status: string, limit: int) {
    if |Whole(parts, status)| <= limit then out == Whole(parts, status)
    else
      && IsFirstFit(marker, parts, status, limit, k)
      && (k == |parts| && parts != [] ==> |parts[k - 1]| > Budget(marker, status, limit))
      && out == (if k < |parts| then Marked(marker, parts[k..], status) else LastResort(marker, parts, status, limit))
  }

  /**
   * All parts, with newlines between and the status after a blank line, if
   * they fit. Else the marker and the parts from the first one, k, from which
   * they fit; or the end of the last part, if there is room for more than 20
   * characters of it; or no more than marker and status.
   */
  ghost predicate IsSpelledOut(out: string, k: nat, marker: string, parts: seq<string>, status: string, limit: int) {
    var ending := if status != "" then "\n\n" + status else "";
    if |Join("\n", parts) + ending| <= limit then out == Join("\n", parts) + ending
    else
      && k <= |parts|
      && (forall j :: 0 <= j < k ==> |marker + Join("\n", parts[j..]) + ending| > limit)
      && (k < |parts| ==> out == marker + Join("\n", parts[k..]) + ending)
      && var room := limit - |marker| - |ending|;
         && (k == |parts| && parts != [] && room > 20 ==>
               && |parts[k - 1]| > room && |out| == limit
               && out == marker + "..." + parts[k - 1][|parts[k - 1]| - (room - 3)..] + ending)
         && (k == |parts| && parts != [] && room <= 20 && (status == "" || status[0] != '\n') ==>
               out == if |marker + status| <= limit then marker + status else status)
         && (parts == [] ==> out == status)
  }

  lemma SpelledOut(out: string, k: nat, marker: string, parts: seq<string>, status: string, limit: int)
    requires IsRendering(out, k, marker, parts, status, limit) && forall i :: 0 <= i < |parts| ==> parts[i] != ""
    ensures IsSpelledOut(out, k, marker, parts, status, limit)
  {
    hide Join, LStripNewlines, IsFirstFit, Marked, LastResort;
    if |Whole(parts, status)| > limit {
      FirstFitIs(marker, parts, status, limit, k);
      if k < |parts| {
        SuffixIs(marker, parts, status, k);
      } else if parts == [] {
        NothingShown(marker, status, limit);
      } else if Budget(marker, status, limit) > 20 {
        TailShown(marker, parts, status, limit);
      } else if status == "" || status[0] != '\n' {
        StatusShown(marker, parts, status, limit);
      }
    }
  }

  lemma FirstFitIs(marker: string, parts: seq<string>, status: string, limit: int, k: nat)
    requires IsFirstFit(marker, parts, status, limit, k) && forall i :: 0 <= i < |parts| ==> parts[i] != ""
    ensures k <= |parts| && forall j :: 0 <= j < k ==> |marker + Join("\n", parts[j..]) + StatusText(status)| > limit
  {
    hide Marked, Join, StatusText;
    forall j | 0 <= j < k ensures |marker + Join("\n", parts[j..]) + StatusText(status)| > limit {
      SuffixIs(marker, parts, status, j);
      assert !Fits(marker, parts, status, limit, j);
    }
  }

  lemma SuffixIs(marker: string, parts: seq<string>, status: string, j: nat)
    requires j < |parts| && parts[j] != ""
    ensures Marked(marker, parts[j..], status) == marker + Join("\n", parts[j..]) + StatusText(status)
  {
  }

  lemma TailShown(marker: string, parts: seq<string>, status: string, limit: int)
    requires parts != [] && 20 < Budget(marker, status, limit) < |parts[|parts| - 1]|
    ensures var (last, room) := (parts[|parts| - 1], Budget(marker, status, limit));
            var out := LastResort(marker, parts, status, limit);
            |out| == limit && out == marker + "..." + last[|last| - (room - 3)..] + StatusText(status)
  {
    hide LStripNewlines, StatusText, TailOnly, Budget;
    TailLaws(marker, parts[|parts| - 1], status, limit);
    TailIs(marker, parts[|parts| - 1], status, Budget(marker, status, limit));
  }

  lemma StatusShown(marker: string, parts: seq<string>, status: string, limit: int)
    requires parts != [] ==> Budget(marker, status, limit) <= 20 && Budget(marker, status, limit) < |parts[|parts| - 1]|
    requires status == "" || status[0] != '\n'
    ensures LastResort(marker, parts, status, limit) ==
              if parts != [] && |marker + status| <= limit then marker + status else status
  {
    StrippedStatus(status);
    hide LStripNewlines, StatusText;
  }

  lemma NothingShown(marker: string, status: string, limit: int)
    ensures LastResort(marker, [], status, limit) == status
  {
  }

  lemma TailIs(marker: string, last: string, status: string, budget: int)
    requires 3 <= budget <= |last|
    ensures TailOnly(marker, last, status, budget) == marker + "..." + last[|last| - (budget - 3)..] + StatusText(status)
  {
    hide StatusText;
    ConcatAssoc(marker, "...", last[|last| - (budget - 3)..]);
  }

  lemma WholeEnds(parts: seq<string>, status: string)
    ensures EndsWith(Whole(parts, status), status)
  {
  }

  lemma MarkedLaws(marker: string, parts: seq<string>, status: string, limit: int, k: nat)
    requires k < |parts| && Fits(marker, parts, status, limit, k)
    ensures |Marked(marker, parts[k..], status)| <= limit
    ensures EndsWith(Marked(marker, parts[k..], status), status)
  {
  }

  lemma LastResortLaws(marker: string, parts: seq<string>, status: string, limit: int)
    requires parts != [] ==> |parts[|parts| - 1]| > Budget(marker, status, limit)
    ensures var out := LastResort(marker, parts, status, limit);
            && (|out| <= limit || |out| <= |status|)
            && (status != "" && status[0] != '\n' ==> EndsWith(out, status))
  {
    if parts != [] && Budget(marker, status, limit) > 20 {
      TailLaws(marker, parts[|parts| - 1], status, limit);
    } else {
      if status != "" && status[0] != '\n' { StrippedStatus(status); }
      hide LStripNewlines, StatusText;
      EndsWithAppend(marker, status);
      EndsWithAppend("", status);
      assert "" + status == status;
    }
  }

  /** The end of the last segment fills the limit exactly. */
  lemma TailLaws(marker: string, last: string, status: string, limit: int)
    requires 20 < Budget(marker, status, limit) <= |last|
    ensures var out := TailOnly(marker, last, status, Budget(marker, status, limit));
            |out| == limit && EndsWith(out, status)
  {
    hide StatusText, EndsWith;
    var budget := Budget(marker, status, limit);
    EndsWithStatus(marker + ("..." + last[|last| - (budget - 3)..]), status);
  }

  lemma EndsWithStatus(body: string, status: string)
    ensures EndsWith(body + StatusText(status), status)
  {
  }

  lemma NoFitAtAll(marker: string, parts: seq<string>, status: string, limit: int)
    requires parts != [] && parts[|parts| - 1] != "" && IsFirstFit(marker, parts, status, limit, |parts|)
    ensures |parts[|parts| - 1]| > Budget(marker, status, limit)
  {
    hide Fits;
    LastDoesNotFit(marker, parts, status, limit);
  }

  /** The last dropped segment is always longer than the budget, so it is always cut. */
  lemma LastDoesNotFit(marker: string, parts: seq<string>, status: string, limit: int)
    requires parts != [] && parts[|parts| - 1] != "" && !Fits(marker, parts, status, limit, |parts| - 1)
    ensures |parts[|parts| - 1]| > limit - |marker| - |StatusText(status)|
  {
  }

  lemma EndsWithAppend(body: string, tail: string)
    ensures EndsWith(body + tail, tail)
  {
  }

  lemma StrippedStatus(status: string)
    requires status == "" || status[0] != '\n'
    ensures LStripNewlines(StatusText(status)) == status
  {
    if status != "" {
      var t := StatusText(status);
      var u := "\n" + status;
      assert t[0] == '\n' && t[1..] == u && u[0] == '\n' && u[1..] == status;
      assert LStripNewlines(t) == LStripNewlines(u) == LStripNewlines(status);
    }
  }
}
