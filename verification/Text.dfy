/** String search as the Python string methods do it, and typed sequences of options. */
module Text {

  datatype Option<+T> = None | Some(value: T)

  /** p occurs in s at position i. */
  predicate OccursAt(s: string, p: string, i: int) {
    0 <= i && i + |p| <= |s| && s[i..i + |p|] == p
  }

  lemma OccursChar(s: string, p: string, i: int, k: nat)
    requires k < |p|
    ensures OccursAt(s, p, i) ==> 0 <= i && i + k < |s| && s[i + k] == p[k]
  {
    if OccursAt(s, p, i) { assert s[i..i + |p|][k] == s[i + k]; }
  }

  lemma OccursInFront(a: string, b: string, p: string, i: int)
    requires i + |p| <= |a|
    ensures OccursAt(a + b, p, i) <==> OccursAt(a, p, i)
  {
    if 0 <= i { assert (a + b)[i..i + |p|] == a[i..i + |p|]; }
  }

  /** The leftmost occurrence of p at or after `from`, or -1. */
  function FindFrom(s: string, p: string, from: nat): (r: int)
    requires from <= |s|
    ensures r == -1 || (from <= r && OccursAt(s, p, r))
    ensures forall j :: from <= j && (r == -1 || j < r) ==> !OccursAt(s, p, j)
    decreases |s| - from
  {
    if OccursAt(s, p, from) then from
    else if from == |s| then -1
    else FindFrom(s, p, from + 1)
  }

  /** `s.find(p)` */
  function Find(s: string, p: string): (r: int)
    ensures r == -1 || OccursAt(s, p, r)
    ensures forall j :: 0 <= j && (r == -1 || j < r) ==> !OccursAt(s, p, j)
  {
    FindFrom(s, p, 0)
  }

  /** `s.rfind(c)` for a single character */
  function RFindChar(s: string, c: char): (r: int)
    ensures -1 <= r < |s|
    ensures r >= 0 ==> s[r] == c
    ensures forall j :: r < j < |s| ==> s[j] != c
  {
    if s == "" then -1
    else if s[|s| - 1] == c then |s| - 1
    else RFindChar(s[..|s| - 1], c)
  }

  /** `s.rfind(p)` */
  function RFind(s: string, p: string): (r: int)
    ensures r == -1 || OccursAt(s, p, r)
    ensures forall j :: r < j ==> !OccursAt(s, p, j)
  {
    RFindUpTo(s, p, |s|)
  }

  function RFindUpTo(s: string, p: string, to: nat): (r: int)
    ensures r == -1 || (r <= to && OccursAt(s, p, r))
    ensures forall j :: r < j <= to ==> !OccursAt(s, p, j)
  {
    if OccursAt(s, p, to) then to
    else if to == 0 then -1
    else RFindUpTo(s, p, to - 1)
  }

  /** The first position at or after `from` that holds c, or -1. */
  function IndexOf(s: string, c: char, from: nat): (r: int)
    requires from <= |s|
    ensures r == -1 || (from <= r < |s| && s[r] == c)
    ensures forall j :: from <= j < (if r == -1 then |s| else r) ==> s[j] != c
    decreases |s| - from
  {
    if from == |s| then -1 else if s[from] == c then from else IndexOf(s, c, from + 1)
  }

  /** Python's `str.isspace`, which is also what `\s` matches. */
  predicate IsSpace(c: char) {
    var n := c as int;
    || 0x09 <= n <= 0x0D || 0x1C <= n <= 0x20 || n == 0x85 || n == 0xA0 || n == 0x1680
    || 0x2000 <= n <= 0x200A || n == 0x2028 || n == 0x2029 || n == 0x202F || n == 0x205F || n == 0x3000
  }

  /** The first position at or after `from` that holds no white space. */
  function SkipSpaces(s: string, from: nat): (r: nat)
    requires from <= |s|
    ensures from <= r <= |s|
    ensures forall j :: from <= j < r ==> IsSpace(s[j])
    ensures r < |s| ==> !IsSpace(s[r])
    decreases |s| - from
  {
    if from < |s| && IsSpace(s[from]) then SkipSpaces(s, from + 1) else from
  }

  function RStrip(s: string): string {
    if s != "" && IsSpace(s[|s| - 1]) then RStrip(s[..|s| - 1]) else s
  }

  /** `s.strip()` */
  function Strip(s: string): string {
    RStrip(s[SkipSpaces(s, 0)..])
  }

  ghost predicate AllSpace(s: string) {
    forall i :: 0 <= i < |s| ==> IsSpace(s[i])
  }

  lemma {:induction false} RStripIs(s: string) returns (after: string)
    ensures s == RStrip(s) + after && AllSpace(after)
    ensures RStrip(s) != "" ==> !IsSpace(RStrip(s)[|RStrip(s)| - 1])
  {
    hide IsSpace;
    if s != "" && IsSpace(s[|s| - 1]) {
      after := RStripIs(s[..|s| - 1]);
      after := after + [s[|s| - 1]];
    } else {
      after := "";
    }
  }

  /** Just the white space at both ends goes. */
  lemma StripIs(s: string) returns (before: string, after: string)
    ensures s == before + Strip(s) + after && AllSpace(before) && AllSpace(after)
    ensures Strip(s) != "" ==> !IsSpace(Strip(s)[0]) && !IsSpace(Strip(s)[|Strip(s)| - 1])
  {
    hide IsSpace;
    var k := SkipSpaces(s, 0);
    before := s[..k];
    after := RStripIs(s[k..]);
    hide RStrip;
    assert s == before + s[k..];
    ConcatAssoc(before, Strip(s), after);
  }

  /** `"".join(parts)` */
  function Concat(parts: seq<string>): string {
    if parts == [] then "" else parts[0] + Concat(parts[1..])
  }

  lemma ConcatAppend(parts: seq<string>, last: string)
    ensures Concat(parts + [last]) == Concat(parts) + last
  {
    if parts == [] {
    } else {
      ConcatAppend(parts[1..], last);
      assert (parts + [last])[1..] == parts[1..] + [last];
    }
  }

  /** `sep.join(parts)` */
  function Join(sep: string, parts: seq<string>): string {
    if parts == [] then ""
    else if |parts| == 1 then parts[0]
    else parts[0] + sep + Join(sep, parts[1..])
  }

  /** The separator goes between the parts. */
  lemma {:induction false} JoinAppend(sep: string, parts: seq<string>, last: string)
    ensures Join(sep, []) == ""
    ensures Join(sep, parts + [last]) == if parts == [] then last else Join(sep, parts) + sep + last
  {
    if |parts| > 1 {
      JoinAppend(sep, parts[1..], last);
      assert (parts + [last])[1..] == parts[1..] + [last];
    }
  }

  /** These positions, in increasing order. */
  ghost predicate Increasing(at: seq<nat>, end: nat) {
    (forall k :: 0 <= k < |at| ==> at[k] < end) && forall j, k :: 0 <= j < k < |at| ==> at[j] < at[k]
  }

  lemma OneMoreAt(at: seq<nat>, end: nat)
    requires Increasing(at, end)
    ensures Increasing(at, end + 1) && Increasing(at + [end], end + 1)
    ensures forall i :: i in at + [end] <==> i in at || i == end
  {
  }

  /** No element comes twice. */
  predicate Distinct<A(==)>(q: seq<A>) {
    forall i, j :: 0 <= i < j < |q| ==> q[i] != q[j]
  }

  ghost predicate Lacks(s: string, c: char) {
    forall i :: 0 <= i < |s| ==> s[i] != c
  }

  lemma LacksBoth(a: string, b: string, c: char)
    ensures Lacks(a + b, c) <==> Lacks(a, c) && Lacks(b, c)
  {
    var ab := a + b;
    assert forall i :: 0 <= i < |a| ==> ab[i] == a[i];
    assert forall i :: 0 <= i < |b| ==> ab[|a| + i] == b[i];
    assert forall i :: 0 <= i < |ab| ==> ab[i] == if i < |a| then a[i] else b[i - |a|];
  }

  predicate EndsWith(s: string, tail: string) {
    |tail| <= |s| && s[|s| - |tail|..] == tail
  }

  lemma SkipExactly(s: string, from: nat, to: nat)
    requires from <= to < |s| && !IsSpace(s[to])
    requires forall j :: from <= j < to ==> IsSpace(s[j])
    ensures SkipSpaces(s, from) == to
  {
  }

  lemma IndexExactly(s: string, c: char, from: nat, at: nat)
    requires from <= at < |s| && s[at] == c
    requires forall j :: from <= j < at ==> s[j] != c
    ensures IndexOf(s, c, from) == at
  {
  }

  lemma FindExactly(s: string, p: string, from: nat, at: nat)
    requires from <= at && OccursAt(s, p, at)
    requires forall j :: from <= j < at ==> !OccursAt(s, p, j)
    ensures FindFrom(s, p, from) == at
  {
  }

  lemma ConcatAssoc<T>(a: seq<T>, b: seq<T>, c: seq<T>)
    ensures a + (b + c) == a + b + c
  {
  }
}
