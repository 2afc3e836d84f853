/**
 * The strict sliding-window limiters (messaging/limiter.py,
 * providers/rate_limit.py, api/rate_limit.py): a pruned deque of grant times
 * refines the full grant history. Times are readings of one non-decreasing clock.
 */
module SlidingWindow {
  import opened Text

  /** The times after the cutoff, in order. */
  function After(times: seq<real>, cutoff: real): (r: seq<real>)
    ensures |r| <= |times|
  {
    if times == [] then []
    else if times[0] > cutoff then [times[0]] + After(times[1..], cutoff)
    else After(times[1..], cutoff)
  }

  ghost predicate Sorted(times: seq<real>) {
    forall i, j :: 0 <= i < j < |times| ==> times[i] <= times[j]
  }

  ghost predicate UpTo(times: seq<real>, now: real) {
    forall i :: 0 <= i < |times| ==> times[i] <= now
  }

  /** Grant i + limit comes at least a window after grant i. */
  ghost predicate Spaced(history: seq<real>, limit: nat, window: real) {
    forall i, j :: 0 <= i && j == i + limit && j < |history| ==> history[i] + window <= history[j]
  }

  // ----- The deque and the history -----

  lemma {:induction false} AfterTwice(times: seq<real>, c: real, d: real)
    requires c <= d
    ensures After(After(times, c), d) == After(times, d)
  {
    if times != [] {
      AfterTwice(times[1..], c, d);
      if times[0] > c {
        assert After(times, c)[1..] == After(times[1..], c);
      }
    }
  }

  lemma {:induction false} AfterAll(times: seq<real>, c: real)
    requires forall i :: 0 <= i < |times| ==> times[i] > c
    ensures After(times, c) == times
  {
    if times != [] { AfterAll(times[1..], c); }
  }

  lemma {:induction false} AfterAppend(times: seq<real>, t: real, c: real)
    requires t > c
    ensures After(times + [t], c) == After(times, c) + [t]
  {
    if times == [] {
    } else {
      AfterAppend(times[1..], t, c);
      assert (times + [t])[1..] == times[1..] + [t] && (times + [t])[0] == times[0];
    }
  }

  /** In a sorted history the times after a cutoff are its last ones. */
  lemma {:induction false} AfterIsSuffix(times: seq<real>, c: real)
    requires Sorted(times)
    ensures After(times, c) == times[|times| - |After(times, c)|..]
    ensures forall i :: 0 <= i < |times| ==> (times[i] > c <==> |times| - |After(times, c)| <= i)
  {
    if times != [] {
      if times[0] > c {
        AfterAll(times, c);
      } else {
        AfterIsSuffix(times[1..], c);
        var n := |After(times, c)|;
        assert times[1..][|times| - 1 - n..] == times[|times| - n..];
        forall i | 0 <= i < |times|
          ensures times[i] > c <==> |times| - n <= i
        {
          if i > 0 { assert times[i] == times[1..][i - 1]; }
        }
      }
    }
  }

  // ----- What a grant and a refusal mean -----

  /** Fewer than `limit` grants lie in the window that ends at t. */
  predicate RoomAt(history: seq<real>, limit: nat, window: real, t: real) {
    |After(history, t - window)| < limit
  }

  /** Without further grants there is room exactly from now + wait on. */
  ghost predicate WaitIsExact(history: seq<real>, limit: nat, window: real, now: real, wait: real) {
    && wait > 0.0
    && forall later :: later >= now ==> (RoomAt(history, limit, window, later) <==> later >= now + wait)
  }

  /** A grant to a window that was not full keeps the grants spaced. */
  lemma GrantKeepsSpacing(history: seq<real>, limit: nat, window: real, now: real)
    requires Sorted(history) && UpTo(history, now) && Spaced(history, limit, window) && limit > 0
    requires RoomAt(history, limit, window, now)
    ensures Spaced(history + [now], limit, window) && Sorted(history + [now]) && UpTo(history + [now], now)
  {
    AfterIsSuffix(history, now - window);
    hide After;
    var n := |history|;
    assert limit <= n ==> history[n - limit] <= now - window;
  }

  /** The oldest time of a full window leaves it at oldest + window, and that makes room. */
  lemma RetryExactly(times: seq<real>, history: seq<real>, limit: nat, window: real, now: real, wait: real)
    requires Sorted(times) && |times| == limit > 0 && times == After(history, now - window)
    requires times[0] > now - window && wait == times[0] + window - now
    ensures WaitIsExact(history, limit, window, now, wait)
  {
    forall later | later >= now
      ensures RoomAt(history, limit, window, later) <==> later >= now + wait
    {
      AfterTwice(history, now - window, later - window);
      AfterIsSuffix(times, later - window);
      hide After;
    }
  }

  /** No half-open window of the given length holds more grants than the limit. */
  lemma WindowBound(history: seq<real>, limit: nat, window: real, x: real)
    requires Sorted(history) && Spaced(history, limit, window) && window > 0.0
    ensures |After(history, x)| - |After(history, x + window)| <= limit
  {
    AfterIsSuffix(history, x);
    AfterIsSuffix(history, x + window);
    hide After, Sorted;
    var i := |history| - |After(history, x)|;
    assert i + limit < |history| ==> history[i] > x && history[i + limit] > x + window;
  }

  /** Dropping times from the front while they have left the window leaves just those inside. */
  method Prune(times: seq<real>, cutoff: real) returns (r: seq<real>)
    requires Sorted(times)
    ensures r == After(times, cutoff) && Sorted(r) && |r| <= |times|
    ensures r != [] ==> r[0] > cutoff
  {
    r := times;
    while r != [] && r[0] <= cutoff
      invariant After(r, cutoff) == After(times, cutoff) && |r| <= |times| && Sorted(r)
    {
      r := r[1..];
    }
    AfterAll(r, cutoff);
  }

  ghost predicate GoodHistory(history: seq<real>, limit: nat, window: real, now: real) {
    limit > 0 && window > 0.0 && Sorted(history) && UpTo(history, now) && Spaced(history, limit, window)
  }

  /** A bucket of times agrees with its grant history inside the window that ends at the clock. */
  ghost predicate Fits(bucket: seq<real>, history: seq<real>, limit: nat, window: real, clock: real) {
    && GoodHistory(history, limit, window, clock)
    && Sorted(bucket) && |bucket| <= limit
    && After(bucket, clock - window) == After(history, clock - window)
  }

  /** It still does as the clock moves on. */
  lemma FitsLater(bucket: seq<real>, history: seq<real>, limit: nat, window: real, clock: real, now: real)
    requires Fits(bucket, history, limit, window, clock) && clock <= now
    ensures Fits(bucket, history, limit, window, now)
  {
    AfterTwice(bucket, clock - window, now - window);
    AfterTwice(history, clock - window, now - window);
    hide After, Spaced, Sorted;
  }

  lemma FitsAfter(history: seq<real>, limit: nat, window: real, now: real)
    requires GoodHistory(history, limit, window, now)
    ensures var kept := After(history, now - window);
            |kept| <= limit && Sorted(kept) ==> Fits(kept, history, limit, window, now)
  {
    AfterTwice(history, now - window, now - window);
    hide After;
  }

  /** The locked region that all three limiters share: prune, then grant or say how long to wait. */
  method SlideAndTry(times: seq<real>, limit: nat, window: real, now: real, ghost history: seq<real>)
    returns (granted: bool, wait: real, kept: seq<real>, ghost history': seq<real>)
    requires Fits(times, history, limit, window, now)
    ensures granted <==> RoomAt(history, limit, window, now)
    ensures history' == if granted then history + [now] else history
    ensures kept == After(history', now - window) && Fits(kept, history', limit, window, now)
    ensures !granted ==> WaitIsExact(history', limit, window, now, wait)
  {
    hide WaitIsExact, After;
    kept := Prune(times, now - window);
    history' := history;
    granted, wait := |kept| < limit, 0.0;
    if granted {
      GrantKeepsSpacing(history, limit, window, now);
      AfterAppend(history, now, now - window);
      history' := history + [now];
      kept := kept + [now];
      AfterIsSuffix(history', now - window);
    } else {
      var oldest := kept[0];
      wait := if oldest + window - now > 0.0 then oldest + window - now else 0.0;
      RetryExactly(kept, history, limit, window, now, wait);
    }
    FitsAfter(history', limit, window, now);
  }

  // ----- Closed windows -----

  /** How many of the times lie in the closed interval from lo to hi. */
  function CountIn(times: seq<real>, lo: real, hi: real): nat {
    if times == [] then 0 else (if lo <= times[0] <= hi then 1 else 0) + CountIn(times[1..], lo, hi)
  }

  function InClosed(history: seq<real>, lo: real, window: real): nat {
    CountIn(history, lo, lo + window)
  }

  /** Every closed window of the given length holds at most `limit` grants. */
  ghost predicate ClosedBound(history: seq<real>, limit: nat, window: real) {
    forall lo: real :: InClosed(history, lo, window) <= limit
  }

  /** Grant i + limit does not come exactly a window after grant i. */
  ghost predicate NoTies(history: seq<real>, limit: nat, window: real) {
    forall i, j :: 0 <= i && j == i + limit && j < |history| ==> history[j] != history[i] + window
  }

  lemma {:induction false} CountConcat(a: seq<real>, b: seq<real>, lo: real, hi: real)
    ensures CountIn(a + b, lo, hi) == CountIn(a, lo, hi) + CountIn(b, lo, hi)
  {
    if a == [] {
      assert a + b == b;
    } else {
      CountConcat(a[1..], b, lo, hi);
      assert (a + b)[1..] == a[1..] + b;
    }
  }

  lemma {:induction false} CountAll(times: seq<real>, lo: real, hi: real)
    ensures CountIn(times, lo, hi) <= |times|
    ensures (forall i :: 0 <= i < |times| ==> lo <= times[i] <= hi) ==> CountIn(times, lo, hi) == |times|
    ensures (forall i :: 0 <= i < |times| ==> times[i] > hi) ==> CountIn(times, lo, hi) == 0
  {
    if times != [] { CountAll(times[1..], lo, hi); }
  }

  /** Without ties, the grants from the first in the window on are out of it after `limit` of them. */
  lemma {:induction false} CountBounded(times: seq<real>, limit: nat, window: real, lo: real)
    requires Sorted(times) && Spaced(times, limit, window) && NoTies(times, limit, window)
    ensures InClosed(times, lo, window) <= limit
  {
    if times == [] {
    } else if times[0] < lo {
      TailApart(times, limit, window);
      CountBounded(times[1..], limit, window, lo);
    } else {
      CountFrom(times, limit, window, lo);
    }
  }

  lemma TailApart(times: seq<real>, limit: nat, window: real)
    requires Sorted(times) && Spaced(times, limit, window) && NoTies(times, limit, window) && times != []
    ensures Sorted(times[1..]) && Spaced(times[1..], limit, window) && NoTies(times[1..], limit, window)
  {
    var rest := times[1..];
    forall i, j | 0 <= i && j == i + limit && j < |rest|
      ensures rest[i] + window <= rest[j] && rest[j] != rest[i] + window
    {
      assert rest[i] == times[i + 1] && rest[j] == times[j + 1];
      assert j + 1 == i + 1 + limit;
    }
  }

  lemma CountFrom(times: seq<real>, limit: nat, window: real, lo: real)
    requires Sorted(times) && Spaced(times, limit, window) && NoTies(times, limit, window)
    requires times != [] && times[0] >= lo
    ensures InClosed(times, lo, window) <= limit
  {
    if limit < |times| {
      LimitIsAfter(times, limit, window, lo);
      hide *;
      CountSplit(times, limit, lo, lo + window);
      NoneAfter(times, limit, lo, lo + window);
    } else {
      hide *;
      CountAll(times, lo, lo + window);
    }
  }

  lemma LimitIsAfter(times: seq<real>, limit: nat, window: real, lo: real)
    requires Spaced(times, limit, window) && NoTies(times, limit, window) && limit < |times| && times[0] >= lo
    ensures times[limit] > lo + window
  {
    assert times[0] + window <= times[limit] && times[limit] != times[0] + window;
  }

  lemma CountSplit(times: seq<real>, n: nat, lo: real, hi: real)
    requires n < |times|
    ensures CountIn(times, lo, hi) <= n + CountIn(times[n..], lo, hi)
  {
    hide CountIn;
    assert times == times[..n] + times[n..];
    CountConcat(times[..n], times[n..], lo, hi);
    CountAll(times[..n], lo, hi);
  }

  lemma NoneAfter(times: seq<real>, n: nat, lo: real, hi: real)
    requires Sorted(times) && n < |times| && times[n] > hi
    ensures CountIn(times[n..], lo, hi) == 0
  {
    CountAll(times[n..], lo, hi);
  }

  /** The window that begins with grant i holds the grants up to one a window later. */
  lemma CountTied(times: seq<real>, i: nat, j: nat, window: real)
    requires Sorted(times) && i <= j < |times| && times[j] == times[i] + window
    ensures CountIn(times, times[i], times[i] + window) > j - i
  {
    var (lo, hi) := (times[i], times[i] + window);
    var (a, b, c) := (times[..i], times[i..j + 1], times[j + 1..]);
    assert forall k :: 0 <= k < |b| ==> lo <= b[k] <= hi;
    hide *;
    assert a + (b + c) == times;
    CountConcat(a, b + c, lo, hi);
    CountConcat(b, c, lo, hi);
    CountAll(b, lo, hi);
  }

  /** Spaced grants keep to the limit in every closed window exactly when no two, `limit` apart, are exactly a window apart. */
  lemma ClosedBoundExactly(history: seq<real>, limit: nat, window: real)
    requires Sorted(history) && Spaced(history, limit, window)
    ensures ClosedBound(history, limit, window) <==> NoTies(history, limit, window)
  {
    hide CountIn, Spaced;
    if NoTies(history, limit, window) {
      forall lo: real ensures InClosed(history, lo, window) <= limit {
        CountBounded(history, limit, window, lo);
      }
    }
    forall i, j | 0 <= i && j == i + limit && j < |history| && history[j] == history[i] + window
      ensures InClosed(history, history[i], window) > limit
    {
      CountTied(history, i, j, window);
    }
  }

  /** One more grant keeps the closed bound exactly when fewer than `limit` lie in the closed window that ends now. */
  lemma ClosedGrantExactly(history: seq<real>, limit: nat, window: real, now: real)
    requires UpTo(history, now) && ClosedBound(history, limit, window) && window > 0.0
    ensures ClosedBound(history + [now], limit, window) <==> CountIn(history, now - window, now) < limit
  {
    CountAppend(history, now, now - window, now);
    assert CountIn(history + [now], now - window, now) == InClosed(history + [now], now - window, window);
    if CountIn(history, now - window, now) < limit {
      hide CountIn;
      forall lo: real ensures InClosed(history + [now], lo, window) <= limit {
        CountAppend(history, now, lo, lo + window);
        assert InClosed(history, lo, window) <= limit;
        if lo <= now <= lo + window { CountWithin(history, lo, lo + window, now - window, now); }
      }
    }
  }

  lemma CountAppend(times: seq<real>, t: real, lo: real, hi: real)
    ensures CountIn(times + [t], lo, hi) == CountIn(times, lo, hi) + if lo <= t <= hi then 1 else 0
  {
    CountConcat(times, [t], lo, hi);
  }

  lemma {:induction false} CountWithin(times: seq<real>, lo: real, hi: real, lo': real, hi': real)
    requires forall i :: 0 <= i < |times| && lo <= times[i] <= hi ==> lo' <= times[i] <= hi'
    ensures CountIn(times, lo, hi) <= CountIn(times, lo', hi')
  {
    if times != [] { CountWithin(times[1..], lo, hi, lo', hi'); }
  }

  /** A grant of the limiter breaks the closed bound exactly when the grant `limit` before it is exactly a window old. */
  lemma LimiterGrantExactly(history: seq<real>, limit: nat, window: real, now: real)
    requires Sorted(history) && UpTo(history, now) && Spaced(history, limit, window) && limit > 0
    requires RoomAt(history, limit, window, now) && ClosedBound(history, limit, window)
    ensures ClosedBound(history + [now], limit, window)
       <==> limit > |history| || history[|history| - limit] + window != now
  {
    GrantKeepsSpacing(history, limit, window, now);
    ClosedBoundExactly(history, limit, window);
    ClosedBoundExactly(history + [now], limit, window);
    hide ClosedBound, Sorted, Spaced, RoomAt, UpTo;
    var (h, n) := (history + [now], |history|);
    assert forall i :: 0 <= i < n ==> h[i] == history[i];
    if limit <= n { assert h[n - limit] == history[n - limit] && h[n] == now; }
  }

  /** Any limit overflows: `limit` grants at 0 and one at the window's length all find room. */
  lemma ClosedWindowOverflows(limit: nat, window: real)
    requires limit > 0 && window > 0.0
    ensures forall k: nat :: k < limit ==> RoomAt(AtZero(k), limit, window, 0.0)
    ensures RoomAt(AtZero(limit), limit, window, window)
    ensures InClosed(AtZero(limit) + [window], 0.0, window) == limit + 1
  {
    var zeros := AtZero(limit);
    AfterIsSuffix(zeros, window - window);
    assert zeros[limit - 1] == 0.0;
    CountAll(zeros + [window], 0.0, window);
  }

  function AtZero(k: nat): seq<real> {
    seq(k, _ => 0.0)
  }

  class SlidingWindowLimiter {
    const limit: nat
    const window: real
    var times: seq<real>
    ghost var history: seq<real>
    ghost var clock: real

    /** The deque is the part of the grant history inside the window that ends at the last reading. */
    ghost predicate Valid()
      reads this
    {
      times == After(history, clock - window) && Fits(times, history, limit, window, clock)
    }

    /** The source rejects a limit or a window that is not positive. */
    constructor (rateLimit: nat, rateWindow: real, now: real)
      requires rateLimit > 0 && rateWindow > 0.0
      ensures Valid() && history == [] && clock == now && limit == rateLimit && window == rateWindow
    {
      limit, window := rateLimit, rateWindow;
      times := [];
      history, clock := [], now;
    }

    /**
     * One locked attempt. It is granted exactly when fewer than `limit`
     * grants lie in the window that ends now; a refusal says exactly how long
     * it takes until an attempt without rivals would be granted.
     */
    method TryAcquire(now: real) returns (granted: bool, wait: real)
      requires Valid() && clock <= now
      modifies this
      ensures Valid() && clock == now
      ensures granted <==> RoomAt(old(history), limit, window, now)
      ensures history == if granted then old(history) + [now] else old(history)
      ensures !granted ==> WaitIsExact(history, limit, window, now, wait)
    {
      FitsLater(times, history, limit, window, clock, now);
      hide After, RoomAt, WaitIsExact, Fits;
      granted, wait, times, history := SlideAndTry(times, limit, window, now, history);
      clock := now;
    }

    /**
     * One waiter's loop, amid the attempts of others: it ends with the first
     * of its own attempts that finds room among the grants until then. Every
     * attempt before, its own and the others', has had its exact effect.
     */
    method Acquire(attempts: seq<Attempt>) returns (k: nat)
      requires Valid() && InTime(attempts, clock)
      modifies this
      ensures Valid() && k <= |attempts|
      ensures forall i :: 0 <= i < k && attempts[i].mine ==>
                !RoomAt(Granted(old(history), attempts[..i], limit, window), limit, window, attempts[i].now)
      ensures k < |attempts| ==>
                && attempts[k].mine && RoomAt(Granted(old(history), attempts[..k], limit, window), limit, window, attempts[k].now)
                && history == Granted(old(history), attempts[..k], limit, window) + [attempts[k].now]
      ensures k == |attempts| ==> history == Granted(old(history), attempts, limit, window)
    {
      hide After, RoomAt, WaitIsExact, Granted;
      k := 0;
      NoAttempts(history, attempts, limit, window);
      while k < |attempts|
        invariant Valid() && k <= |attempts| && history == Granted(old(history), attempts[..k], limit, window)
        invariant forall i :: k <= i < |attempts| ==> clock <= attempts[i].now
        invariant forall i :: 0 <= i < k && attempts[i].mine ==>
                    !RoomAt(Granted(old(history), attempts[..i], limit, window), limit, window, attempts[i].now)
      {
        var granted, wait := TryAcquire(attempts[k].now);
        if granted && attempts[k].mine {
          return;
        }
        OneMoreAttempt(old(history), attempts, k, limit, window);
        k := k + 1;
      }
      assert attempts[..k] == attempts;
    }
  }

  /** An attempt of one waiter, or of another. */
  datatype Attempt = Attempt(mine: bool, now: real)

  ghost predicate InTime(attempts: seq<Attempt>, clock: real) {
    && (forall i :: 0 <= i < |attempts| ==> clock <= attempts[i].now)
    && forall i, j :: 0 <= i < j < |attempts| ==> attempts[i].now <= attempts[j].now
  }

  /** The grants after these attempts: each is granted if there is room. */
  function Granted(history: seq<real>, attempts: seq<Attempt>, limit: nat, window: real): seq<real> {
    if attempts == [] then history
    else
      var (before, now) := (Granted(history, attempts[..|attempts| - 1], limit, window), attempts[|attempts| - 1].now);
      if RoomAt(before, limit, window, now) then before + [now] else before
  }

  lemma NoAttempts(history: seq<real>, attempts: seq<Attempt>, limit: nat, window: real)
    ensures Granted(history, attempts[..0], limit, window) == history
  {
  }

  lemma OneMoreAttempt(history: seq<real>, attempts: seq<Attempt>, k: nat, limit: nat, window: real)
    requires k < |attempts|
    ensures var before := Granted(history, attempts[..k], limit, window);
            Granted(history, attempts[..k + 1], limit, window) ==
              if RoomAt(before, limit, window, attempts[k].now) then before + [attempts[k].now] else before
  {
    hide RoomAt;
    assert attempts[..k + 1][..k] == attempts[..k];
  }

  /** Whoever has waited the full time and is refused again has lost to another: a grant was made meanwhile. */
  lemma RefusedAgain(history: seq<real>, attempts: seq<Attempt>, limit: nat, window: real, now: real, wait: real, later: real)
    requires WaitIsExact(history, limit, window, now, wait) && now + wait <= later
    requires !RoomAt(Granted(history, attempts, limit, window), limit, window, later)
    ensures exists k :: 0 <= k < |attempts| &&
              RoomAt(Granted(history, attempts[..k], limit, window), limit, window, attempts[k].now)
  {
    assert later >= now && attempts[..|attempts|] == attempts;
    hide RoomAt;
    if forall k :: 0 <= k < |attempts| ==> !RoomAt(Granted(history, attempts[..k], limit, window), limit, window, attempts[k].now) {
      NoneGranted(history, attempts, |attempts|, limit, window);
    }
  }

  lemma {:induction false} NoneGranted(history: seq<real>, attempts: seq<Attempt>, n: nat, limit: nat, window: real)
    requires n <= |attempts|
    requires forall k :: 0 <= k < n ==> !RoomAt(Granted(history, attempts[..k], limit, window), limit, window, attempts[k].now)
    ensures Granted(history, attempts[..n], limit, window) == history
  {
    if n > 0 {
      NoneGranted(history, attempts, n - 1, limit, window);
      OneMoreAttempt(history, attempts, n - 1, limit, window);
    }
  }

  /** Per-key windows; a key's scope fixes its limit and its window. */
  class RateWindowStore {
    const limits: string -> nat
    const windows: string -> real
    var events: map<string, seq<real>>
    ghost var histories: map<string, seq<real>>
    ghost var clock: real

    ghost function HistoryOf(key: string): seq<real>
      reads this
    {
      if key in histories then histories[key] else []
    }

    function EventsOf(key: string): seq<real>
      reads this
    {
      if key in events then events[key] else []
    }

    /** A key's bucket may hold times that have left the window since its last use. */
    ghost predicate KeyValid(key: string)
      reads this
    {
      Fits(EventsOf(key), HistoryOf(key), limits(key), windows(key), clock)
    }

    ghost predicate Valid()
      reads this
    {
      forall key: string :: KeyValid(key)
    }

    constructor (scopeLimits: string -> nat, scopeWindows: string -> real, now: real)
      requires forall key :: scopeLimits(key) > 0 && scopeWindows(key) > 0.0
      ensures Valid() && histories == map[] && clock == now && limits == scopeLimits && windows == scopeWindows
    {
      limits, windows := scopeLimits, scopeWindows;
      events := map[];
      histories, clock := map[], now;
    }

    /** Allowed exactly when the key's own window is not full; other keys are not affected. */
    method Allow(key: string, now: real) returns (allowed: bool, retryAfter: real)
      requires Valid() && clock <= now
      modifies this
      ensures Valid() && clock == now
      ensures allowed <==> RoomAt(old(HistoryOf(key)), limits(key), windows(key), now)
      ensures HistoryOf(key) == if allowed then old(HistoryOf(key)) + [now] else old(HistoryOf(key))
      ensures forall other :: other != key ==> HistoryOf(other) == old(HistoryOf(other)) && EventsOf(other) == old(EventsOf(other))
      ensures !allowed ==> WaitIsExact(HistoryOf(key), limits(key), windows(key), now, retryAfter)
    {
      var limit, window := limits(key), windows(key);
      ghost var history := HistoryOf(key);
      forall any: string
        ensures Fits(EventsOf(any), HistoryOf(any), limits(any), windows(any), now)
      {
        assert KeyValid(any);
        FitsLater(EventsOf(any), HistoryOf(any), limits(any), windows(any), clock, now);
      }
      hide After, RoomAt, WaitIsExact, Fits;
      ghost var history';
      var kept;
      allowed, retryAfter, kept, history' := SlideAndTry(EventsOf(key), limit, window, now, history);
      histories := histories[key := history'];
      events := events[key := kept];
      clock := now;
    }
  }
}
