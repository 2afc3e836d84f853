/**
 * The compacting send queue (messaging/limiter.py): a list of keys and a map
 * of tasks refine a log of pending requests.
 */
module SendQueue {
  import opened Text

  type Key = string
  type Func = nat
  type Future = nat

  datatype Request = Request(key: Key, func: Func, future: Future)

  datatype Outcome = Result(value: int) | Exception(message: string)

  // ----- The log of pending requests -----

  /** The keys in the order of their first pending request. */
  function KeysOf(log: seq<Request>): seq<Key> {
    if log == [] then []
    else
      var (keys, last) := (KeysOf(log[..|log| - 1]), log[|log| - 1]);
      if last.key in keys then keys else keys + [last.key]
  }

  /** The pending requests for a key, oldest first. */
  function For(log: seq<Request>, key: Key): seq<Request> {
    if log == [] then []
    else
      var (earlier, last) := (For(log[..|log| - 1], key), log[|log| - 1]);
      if last.key == key then earlier + [last] else earlier
  }

  /** The log without the requests for a key. */
  function Without(log: seq<Request>, key: Key): seq<Request> {
    if log == [] then []
    else
      var (earlier, last) := (Without(log[..|log| - 1], key), log[|log| - 1]);
      if last.key == key then earlier else earlier + [last]
  }

  /** Picked, in their order, at the places `at`: the requests for the key, or those for the others. */
  ghost predicate PickedAt(log: seq<Request>, key: Key, wanted: bool, picked: seq<Request>, at: seq<nat>) {
    && Increasing(at, |log|) && |at| == |picked| && (forall k :: 0 <= k < |at| ==> picked[k] == log[at[k]])
    && forall i :: 0 <= i < |log| ==> (i in at <==> (log[i].key == key) == wanted)
  }

  lemma OneMorePicked(log: seq<Request>, key: Key, wanted: bool, picked: seq<Request>, at: seq<nat>)
    requires log != [] && PickedAt(log[..|log| - 1], key, wanted, picked, at)
    ensures var n := |log| - 1;
            if (log[n].key == key) == wanted then PickedAt(log, key, wanted, picked + [log[n]], at + [n])
            else PickedAt(log, key, wanted, picked, at)
  {
    var n := |log| - 1;
    var before := log[..n];
    assert forall i :: 0 <= i < n ==> before[i] == log[i];
    OneMoreAt(at, n);
  }

  /** The requests for a key are those of the log, each once, in their order. */
  lemma {:induction false} ForIs(log: seq<Request>, key: Key) returns (at: seq<nat>)
    ensures PickedAt(log, key, true, For(log, key), at)
  {
    at := [];
    if log != [] {
      var n := |log| - 1;
      at := ForIs(log[..n], key);
      OneMorePicked(log, key, true, For(log[..n], key), at);
      if log[n].key == key { at := at + [n]; }
      hide PickedAt;
    }
  }

  /** The log without a key is its other requests, each once, in their order. */
  lemma {:induction false} WithoutIs(log: seq<Request>, key: Key) returns (at: seq<nat>)
    ensures PickedAt(log, key, false, Without(log, key), at)
  {
    at := [];
    if log != [] {
      var n := |log| - 1;
      at := WithoutIs(log[..n], key);
      OneMorePicked(log, key, false, Without(log[..n], key), at);
      if log[n].key != key { at := at + [n]; }
      hide PickedAt;
    }
  }

  /** The keys are those of the log, each once, in the order of the first request for each. */
  lemma {:induction false} KeysInOrder(log: seq<Request>) returns (at: seq<nat>)
    ensures Increasing(at, |log|) && |at| == |KeysOf(log)|
    ensures forall k :: 0 <= k < |at| ==> KeysOf(log)[k] == log[at[k]].key && forall i :: 0 <= i < at[k] ==> log[i].key != log[at[k]].key
    ensures forall i :: 0 <= i < |log| ==> log[i].key in KeysOf(log)
  {
    at := [];
    if log != [] {
      var n := |log| - 1;
      var before := log[..n];
      at := KeysInOrder(before);
      OneMoreAt(at, n);
      hide Increasing;
      assert forall i :: 0 <= i < n ==> before[i] == log[i];
      if log[n].key !in KeysOf(before) {
        at := at + [n];
      }
    }
  }

  function FuturesOf(log: seq<Request>): seq<Future> {
    seq(|log|, i requires 0 <= i < |log| => log[i].future)
  }

  ghost predicate DistinctFutures(log: seq<Request>) {
    Distinct(FuturesOf(log))
  }

  lemma FuturesApart(log: seq<Request>)
    ensures DistinctFutures(log) <==> forall i, j :: 0 <= i < j < |log| ==> log[i].future != log[j].future
  {
    var futures := FuturesOf(log);
    assert forall i :: 0 <= i < |log| ==> futures[i] == log[i].future;
    if Distinct(futures) {
      forall i, j | 0 <= i < j < |log| ensures log[i].future != log[j].future { assert futures[i] != futures[j]; }
    }
  }

  lemma Last(log: seq<Request>, r: Request)
    ensures (log + [r])[..|log + [r]| - 1] == log && (log + [r])[|log + [r]| - 1] == r
  {
  }

  lemma {:induction false} KeysAre(log: seq<Request>)
    ensures Distinct(KeysOf(log))
    ensures forall key :: key in KeysOf(log) <==> For(log, key) != []
  {
    if log != [] { KeysAre(log[..|log| - 1]); }
  }

  /** The next key served is the key of the oldest pending request. */
  lemma {:induction false} FirstKeyIsOldest(log: seq<Request>)
    requires log != []
    ensures KeysOf(log) != [] && KeysOf(log)[0] == log[0].key
  {
    if |log| > 1 {
      FirstKeyIsOldest(log[..|log| - 1]);
    } else {
      assert log[..0] == [];
    }
  }

  /** Serving a key removes it from the order of the others. */
  lemma {:induction false} KeysWithout(log: seq<Request>, key: Key)
    ensures KeysOf(Without(log, key)) == KeysExcept(KeysOf(log), key)
  {
    if log != [] {
      var before, last := log[..|log| - 1], log[|log| - 1];
      var others := Without(before, key);
      KeysWithout(before, key);
      ExceptAppend(KeysOf(before), last.key, key);
      ExceptElements(KeysOf(before), key);
      Last(others, last);
      assert KeysOf(others + [last]) == if last.key in KeysOf(others) then KeysOf(others) else KeysOf(others) + [last.key];
      hide KeysExcept;
    }
  }

  /** And it leaves their pending requests alone. */
  lemma {:induction false} ForWithout(log: seq<Request>, key: Key, other: Key)
    ensures For(Without(log, key), other) == if other == key then [] else For(log, other)
  {
    if log != [] {
      var before, last := log[..|log| - 1], log[|log| - 1];
      ForWithout(before, key, other);
      Last(Without(before, key), last);
    }
  }

  function KeysExcept(keys: seq<Key>, key: Key): seq<Key> {
    if keys == [] then []
    else if keys[0] == key then KeysExcept(keys[1..], key)
    else [keys[0]] + KeysExcept(keys[1..], key)
  }

  lemma {:induction false} ExceptAppend(keys: seq<Key>, last: Key, key: Key)
    ensures KeysExcept(keys + [last], key) == if last == key then KeysExcept(keys, key) else KeysExcept(keys, key) + [last]
  {
    if keys == [] {
    } else {
      ExceptAppend(keys[1..], last, key);
      assert (keys + [last])[1..] == keys[1..] + [last] && (keys + [last])[0] == keys[0];
    }
  }

  lemma {:induction false} ExceptElements(keys: seq<Key>, key: Key)
    ensures forall other :: other in KeysExcept(keys, key) <==> other in keys && other != key
    ensures key !in keys ==> KeysExcept(keys, key) == keys
  {
    if keys != [] {
      ExceptElements(keys[1..], key);
      assert forall other :: other in keys <==> other == keys[0] || other in keys[1..];
    }
  }

  lemma ExceptFirst(keys: seq<Key>)
    requires keys != [] && Distinct(keys)
    ensures KeysExcept(keys, keys[0]) == keys[1..]
  {
    assert keys[0] !in keys[1..];
    ExceptElements(keys[1..], keys[0]);
  }

  /** A request put in front of requests for other keys. */
  lemma {:induction false} InFront(log: seq<Request>, r: Request)
    requires r.key !in KeysOf(log)
    ensures KeysOf([r] + log) == [r.key] + KeysOf(log)
    ensures forall key :: For([r] + log, key) == if key == r.key then [r] + For(log, key) else For(log, key)
  {
    if log == [] {
      assert [r] + log == [r] && [r][..0] == [];
    } else {
      var before, last := log[..|log| - 1], log[|log| - 1];
      InFront(before, r);
      assert ([r] + log)[..|log|] == [r] + before && ([r] + log)[|log|] == last;
    }
  }

  lemma {:induction false} ForIsPart(log: seq<Request>, key: Key, r: Request)
    ensures r in For(log, key) <==> r in log && r.key == key
    ensures r in Without(log, key) <==> r in log && r.key != key
  {
    if log != [] {
      var before, last := log[..|log| - 1], log[|log| - 1];
      ForIsPart(before, key, r);
      assert log == before + [last];
    }
  }

  lemma {:induction false} WithoutDistinct(log: seq<Request>, key: Key)
    requires DistinctFutures(log)
    ensures DistinctFutures(Without(log, key))
  {
    FuturesApart(log);
    FuturesApart(Without(log, key));
    if log != [] {
      var before, last := log[..|log| - 1], log[|log| - 1];
      FuturesApart(before);
      WithoutDistinct(before, key);
      var others := Without(before, key);
      FuturesApart(others);
      forall i | 0 <= i < |others|
        ensures others[i].future != last.future
      {
        ForIsPart(before, key, others[i]);
        var j :| 0 <= j < |before| && before[j] == others[i];
        assert log[j] == before[j] && log[|log| - 1] == last;
      }
      hide Without;
    }
  }

  // ----- The queue -----

  /** The map entry of a key: present when requests are pending, with the latest function and all futures. */
  ghost predicate KeyHolds(tasks: map<Key, (Func, seq<Future>)>, log: seq<Request>, key: Key) {
    var pending := For(log, key);
    && (key in tasks <==> pending != [])
    && (pending != [] ==> tasks[key] == (pending[|pending| - 1].func, FuturesOf(pending)))
  }

  /** A request for a key that is pending is merged into its entry. */
  lemma MergeHolds(tasks: map<Key, (Func, seq<Future>)>, log: seq<Request>, r: Request, key: Key)
    requires KeyHolds(tasks, log, key) && KeyHolds(tasks, log, r.key) && r.key in tasks
    ensures KeyHolds(tasks[r.key := (r.func, tasks[r.key].1 + [r.future])], log + [r], key)
  {
    Last(log, r);
    var pending := For(log, r.key);
    assert FuturesOf(pending + [r]) == FuturesOf(pending) + [r.future];
  }

  /** A request for a new key gets an entry of its own, at either end. */
  lemma AddHolds(tasks: map<Key, (Func, seq<Future>)>, log: seq<Request>, r: Request, key: Key)
    requires KeyHolds(tasks, log, key) && KeyHolds(tasks, log, r.key) && r.key !in tasks && r.key !in KeysOf(log)
    ensures KeyHolds(tasks[r.key := (r.func, [r.future])], log + [r], key)
    ensures KeyHolds(tasks[r.key := (r.func, [r.future])], [r] + log, key)
  {
    ForNew(log, r, key);
    hide For, KeysOf;
    assert FuturesOf([r]) == [r.future];
  }

  /** Requests for a new key are just that one, at whichever end it is. */
  lemma ForNew(log: seq<Request>, r: Request, key: Key)
    requires For(log, r.key) == [] && r.key !in KeysOf(log)
    ensures For(log + [r], key) == For([r] + log, key) == if key == r.key then [r] else For(log, key)
  {
    Last(log, r);
    InFront(log, r);
  }

  ghost predicate AllHold(tasks: map<Key, (Func, seq<Future>)>, log: seq<Request>) {
    forall key: Key :: KeyHolds(tasks, log, key)
  }

  /** The entry of a key after one more request for it. */
  function EntryWith(tasks: map<Key, (Func, seq<Future>)>, r: Request): (Func, seq<Future>) {
    if r.key in tasks then (r.func, tasks[r.key].1 + [r.future]) else (r.func, [r.future])
  }

  /** What enqueueing makes of list and map: a merge, or a new entry at either end. */
  lemma EnqueueHolds(tasks: map<Key, (Func, seq<Future>)>, log: seq<Request>, r: Request)
    requires AllHold(tasks, log)
    ensures r.key in tasks <==> r.key in KeysOf(log)
    ensures KeysOf(log + [r]) == if r.key in tasks then KeysOf(log) else KeysOf(log) + [r.key]
    ensures r.key !in tasks ==> KeysOf([r] + log) == [r.key] + KeysOf(log)
    ensures AllHold(tasks[r.key := EntryWith(tasks, r)], log + [r])
    ensures r.key !in tasks ==> AllHold(tasks[r.key := EntryWith(tasks, r)], [r] + log)
  {
    KeysAre(log);
    Last(log, r);
    assert KeyHolds(tasks, log, r.key);
    if r.key !in tasks { InFront(log, r); }
    var more := tasks[r.key := EntryWith(tasks, r)];
    hide For, KeysOf;
    forall key: Key
      ensures KeyHolds(more, log + [r], key)
      ensures r.key !in tasks ==> KeyHolds(more, [r] + log, key)
    {
      assert KeyHolds(tasks, log, key);
      if r.key in tasks { MergeHolds(tasks, log, r, key); } else { AddHolds(tasks, log, r, key); }
      hide KeyHolds;
    }
  }

  lemma FreshStaysDistinct(log: seq<Request>, r: Request)
    requires DistinctFutures(log) && forall p :: p in log ==> p.future != r.future
    ensures DistinctFutures(log + [r]) && DistinctFutures([r] + log)
  {
    FuturesApart(log);
    FuturesApart(log + [r]);
    FuturesApart([r] + log);
  }

  lemma ServeHolds(tasks: map<Key, (Func, seq<Future>)>, log: seq<Request>, served: Key, key: Key)
    requires KeyHolds(tasks, log, key)
    ensures KeyHolds(tasks - {served}, Without(log, served), key)
  {
    ForWithout(log, served, key);
  }

  lemma AllServed(tasks: map<Key, (Func, seq<Future>)>, log: seq<Request>, served: Key)
    requires AllHold(tasks, log)
    ensures AllHold(tasks - {served}, Without(log, served))
  {
    forall key: Key
      ensures KeyHolds(tasks - {served}, Without(log, served), key)
    {
      assert KeyHolds(tasks, log, key);
      ServeHolds(tasks, log, served, key);
    }
  }

  /** A request that comes while a batch is in service, and the end of the queue at which a new key goes in. */
  datatype Arrival = Arrival(request: Request, front: bool)

  function LogWith(log: seq<Request>, a: Arrival): seq<Request> {
    if a.front && a.request.key !in KeysOf(log) then [a.request] + log else log + [a.request]
  }

  function LogWithAll(log: seq<Request>, arrivals: seq<Arrival>): seq<Request> {
    if arrivals == [] then log else LogWith(LogWithAll(log, arrivals[..|arrivals| - 1]), arrivals[|arrivals| - 1])
  }

  /** The future of a request is its own. */
  ghost predicate NewFutures(log: seq<Request>, arrivals: seq<Arrival>) {
    && (forall i, p :: 0 <= i < |arrivals| && p in log ==> arrivals[i].request.future != p.future)
    && forall i, j :: 0 <= i < j < |arrivals| ==> arrivals[i].request.future != arrivals[j].request.future
  }

  ghost predicate Apart(log: seq<Request>, batch: seq<Request>) {
    forall r, p :: r in log && p in batch ==> r.future != p.future
  }

  lemma MoreApart(log: seq<Request>, batch: seq<Request>, r: Request)
    requires Apart(log, batch) && forall p :: p in batch ==> p.future != r.future
    ensures Apart(log + [r], batch) && Apart([r] + log, batch)
  {
  }

  /** What is served shares no future with what is left. */
  lemma ServedApart(log: seq<Request>, key: Key)
    requires DistinctFutures(log)
    ensures Apart(Without(log, key), For(log, key))
  {
    FuturesApart(log);
    forall r, p | r in Without(log, key) && p in For(log, key)
      ensures r.future != p.future
    {
      ForIsPart(log, key, r);
      ForIsPart(log, key, p);
      var j :| 0 <= j < |log| && log[j] == r;
      var k :| 0 <= k < |log| && log[k] == p;
      assert j != k;
    }
  }

  /** The log holds exactly what it held and what has arrived. */
  lemma {:induction false} LogWithAllElements(log: seq<Request>, arrivals: seq<Arrival>, r: Request)
    ensures r in LogWithAll(log, arrivals) <==> r in log || exists i :: 0 <= i < |arrivals| && arrivals[i].request == r
  {
    if arrivals != [] {
      var (before, last) := (arrivals[..|arrivals| - 1], arrivals[|arrivals| - 1]);
      LogWithAllElements(log, before, r);
      assert r in LogWith(LogWithAll(log, before), last) <==> r in LogWithAll(log, before) || r == last.request;
      assert forall i :: 0 <= i < |before| ==> before[i] == arrivals[i];
    }
  }

  lemma LogWithOneMore(log: seq<Request>, arrivals: seq<Arrival>, k: nat)
    requires k < |arrivals|
    ensures LogWithAll(log, arrivals[..k + 1]) == LogWith(LogWithAll(log, arrivals[..k]), arrivals[k])
  {
    assert arrivals[..k + 1][..k] == arrivals[..k];
  }

  /**
   * The first key of the list is that of the oldest request, and taking it off
   * leaves list and map as the rest of the log says.
   */
  lemma PopHolds(log: seq<Request>, tasks: map<Key, (Func, seq<Future>)>)
    requires KeysOf(log) != [] && DistinctFutures(log) && AllHold(tasks, log)
    ensures log != [] && KeysOf(log)[0] == log[0].key && log[0].key in tasks
    ensures var (key, pending) := (log[0].key, For(log, log[0].key));
            && pending != [] && tasks[key] == (pending[|pending| - 1].func, FuturesOf(pending))
            && KeysOf(Without(log, key)) == KeysOf(log)[1..]
            && DistinctFutures(Without(log, key)) && AllHold(tasks - {key}, Without(log, key))
            && Apart(Without(log, key), pending)
  {
    KeysAre(log);
    FirstKeyIsOldest(log);
    var key := log[0].key;
    KeysWithout(log, key);
    ExceptFirst(KeysOf(log));
    WithoutDistinct(log, key);
    assert KeyHolds(tasks, log, key);
    AllServed(tasks, log, key);
    ServedApart(log, key);
    assert key in KeysOf(log);
    hide Without, KeysExcept, DistinctFutures, AllHold, Apart;
  }

  class CompactingQueue {
    var queueList: seq<Key>
    var queueMap: map<Key, (Func, seq<Future>)>
    var done: map<Future, Outcome>
    ghost var log: seq<Request>
    ghost var inService: seq<Request>  // taken off the queue, but not settled yet

    /**
     * List and map together are the log: keys by first request, latest
     * function, all futures. What is in service has no future in common with it.
     */
    ghost predicate Valid()
      reads this
    {
      && queueList == KeysOf(log) && DistinctFutures(log)
      && AllHold(queueMap, log)
      && Apart(log, inService)
    }

    constructor ()
      ensures Valid() && log == [] && inService == [] && done == map[]
    {
      queueList, queueMap, done := [], map[], map[];
      log, inService := [], [];
    }

    /** A request joins those pending for its key, or queues up behind (or in front of) all others. */
    method EnqueueInternal(r: Request, front: bool)
      requires Valid() && forall p :: p in log || p in inService ==> p.future != r.future
      modifies this`queueList, this`queueMap, this`log
      ensures Valid() && log == LogWith(old(log), Arrival(r, front))
      ensures log == if front && r.key !in old(queueMap) then [r] + old(log) else old(log) + [r]
      ensures queueMap == old(queueMap)[r.key :=
                (r.func, if r.key in old(queueMap) then old(queueMap)[r.key].1 + [r.future] else [r.future])]
      ensures queueList ==
                if r.key in old(queueMap) then old(queueList) else if front then [r.key] + old(queueList) else old(queueList) + [r.key]
    {
      EnqueueHolds(queueMap, log, r);
      FreshStaysDistinct(log, r);
      MoreApart(log, inService, r);
      hide AllHold, KeysOf, DistinctFutures, Apart;
      if r.key in queueMap {
        queueMap := queueMap[r.key := (r.func, queueMap[r.key].1 + [r.future])];
        log := log + [r];
      } else {
        queueMap := queueMap[r.key := (r.func, [r.future])];
        if front {
          queueList := [r.key] + queueList;
          log := [r] + log;
        } else {
          queueList := queueList + [r.key];
          log := log + [r];
        }
      }
    }

    /** Takes the next key with its function and futures. */
    method Pop() returns (key: Key, func: Func, futures: seq<Future>)
      requires Valid() && queueList != [] && inService == []
      modifies this`queueList, this`queueMap, this`log, this`inService
      ensures Valid() && old(log) != [] && key == old(log)[0].key && log == Without(old(log), key)
      ensures var pending := For(old(log), key);
              && pending != [] && func == pending[|pending| - 1].func && futures == FuturesOf(pending)
              && inService == pending
      ensures key == old(queueList)[0] && key in old(queueMap) && (func, futures) == old(queueMap)[key]
      ensures queueList == old(queueList)[1..] && queueMap == old(queueMap) - {key}
    {
      PopHolds(log, queueMap);
      hide KeysOf, For, Without, Apart, FuturesOf, DistinctFutures, AllHold;
      key := queueList[0];
      queueList := queueList[1..];
      func, futures := queueMap[key].0, queueMap[key].1;
      queueMap := queueMap - {key};
      inService := For(log, key);
      log := Without(log, key);
    }

    /** Settles the futures that are not done yet. */
    method Settle(futures: seq<Future>, outcome: Outcome)
      modifies this`done
      ensures forall f :: f in done <==> f in old(done) || f in futures
      ensures forall f :: f in old(done) ==> done[f] == old(done)[f]
      ensures forall f :: f in futures && f !in old(done) ==> done[f] == outcome
    {
      for k := 0 to |futures|
        invariant forall f :: f in done <==> f in old(done) || f in futures[..k]
        invariant forall f :: f in old(done) ==> done[f] == old(done)[f]
        invariant forall f :: f in futures[..k] && f !in old(done) ==> done[f] == outcome
      {
        assert futures[..k + 1] == futures[..k] + [futures[k]];
        if futures[k] !in done {
          done := done[futures[k] := outcome];
        }
      }
      assert futures[..|futures|] == futures;
    }

    /** The batch in service is settled; requests that are pending by now are not. */
    method FinishService(futures: seq<Future>, outcome: Outcome)
      requires Valid() && futures == FuturesOf(inService)
      modifies this`done, this`inService
      ensures Valid() && inService == []
      ensures forall f :: f in done <==> f in old(done) || f in futures
      ensures forall f :: f in old(done) ==> done[f] == old(done)[f]
      ensures forall f :: f in futures && f !in old(done) ==> done[f] == outcome
      ensures forall r :: r in log && r.future !in old(done) ==> r.future !in done
    {
      Settle(futures, outcome);
      inService := [];
    }

    /**
     * One round of the worker, with requests that arrive while the call is
     * awaited. The key of the oldest pending request is served by the latest
     * function that was enqueued for it before the round; exactly the futures
     * pending for that key by then are settled, all with the same outcome, and
     * none that is done is settled again. Whatever has arrived, for the same
     * key too, is pending afterwards and not settled.
     */
    method ServeNext(call: Func -> Outcome, arrivals: seq<Arrival>)
      requires Valid() && queueList != [] && inService == [] && NewFutures(log, arrivals)
      modifies this
      ensures Valid() && old(log) != [] && inService == []
      ensures var key := old(log)[0].key;
              var pending := For(old(log), key);
              && log == LogWithAll(Without(old(log), key), arrivals) && pending != []
              && (forall f :: f in done <==> f in old(done) || f in FuturesOf(pending))
              && (forall f :: f in old(done) ==> done[f] == old(done)[f])
              && (forall f :: f in FuturesOf(pending) && f !in old(done) ==> done[f] == call(pending[|pending| - 1].func))
              && (forall r :: r in log && r.key == key <==> r.key == key && exists i :: 0 <= i < |arrivals| && arrivals[i].request == r)
      ensures forall r :: r in log && r.future !in old(done) ==> r.future !in done
    {
      ghost var before := log;
      hide KeysOf, For, Without, FuturesOf, KeyHolds, LogWith, LogWithAll;
      var key, func, futures := Pop();
      ghost var left := log;
      LogWithNone(left);
      for k := 0 to |arrivals|
        invariant Valid() && inService == For(before, key)
        invariant done == old(done) && log == LogWithAll(left, arrivals[..k])
      {
        StillNew(before, key, arrivals, k);
        LogWithOneMore(left, arrivals, k);
        EnqueueInternal(arrivals[k].request, arrivals[k].front);
      }
      assert arrivals[..|arrivals|] == arrivals;
      FinishService(futures, call(func));
      OnlyArrivals(before, key, arrivals);
    }
  }

  lemma LogWithNone(log: seq<Request>)
    ensures LogWithAll(log, []) == log
  {
  }

  /** The next arrival has a future that is neither pending nor in service. */
  lemma StillNew(log: seq<Request>, key: Key, arrivals: seq<Arrival>, k: nat)
    requires NewFutures(log, arrivals) && k < |arrivals|
    ensures forall p :: p in LogWithAll(Without(log, key), arrivals[..k]) || p in For(log, key) ==>
              p.future != arrivals[k].request.future
  {
    forall p | p in LogWithAll(Without(log, key), arrivals[..k]) || p in For(log, key)
      ensures p.future != arrivals[k].request.future
    {
      LogWithAllElements(Without(log, key), arrivals[..k], p);
      ForIsPart(log, key, p);
      hide LogWithAll, Without, For;
      if p !in log {
        var i :| 0 <= i < |arrivals[..k]| && arrivals[..k][i].request == p;
        assert arrivals[..k][i] == arrivals[i];
      }
    }
  }

  /** What is pending for the served key afterwards is what has arrived for it meanwhile. */
  lemma OnlyArrivals(log: seq<Request>, key: Key, arrivals: seq<Arrival>)
    ensures forall r :: r in LogWithAll(Without(log, key), arrivals) && r.key == key
              <==> r.key == key && exists i :: 0 <= i < |arrivals| && arrivals[i].request == r
  {
    forall r: Request
      ensures r in LogWithAll(Without(log, key), arrivals) && r.key == key
        <==> r.key == key && exists i :: 0 <= i < |arrivals| && arrivals[i].request == r
    {
      LogWithAllElements(Without(log, key), arrivals, r);
      ForIsPart(log, key, r);
    }
  }
}
