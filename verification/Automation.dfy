/**
 * The daily automation rule and its worker pool (api/automation/scheduler.py).
 * Times are microseconds of one clock; dates are day numbers in the
 * automation's own, fixed offset from it.
 */
module Automation {
  import opened Text

  type Id = int
  const MINUTE: int := 60_000_000
  const DAY: int := 24 * 60 * MINUTE

  /** The parts of a daily schedule; no weekdays means every day. */
  datatype Schedule = Schedule(hour: int, minute: int, offset: int, weekdays: set<int>)
  datatype Candidate = Candidate(id: Id, schedule: Option<Schedule>, lastRun: Option<int>)
  datatype Queued = Queued(id: Id, scheduledAt: int)
  datatype Record = Record(id: Id, createdAt: int)

  /** What one worker is doing; a run that is Recorded has only to be released. */
  datatype Slot = Idle | Executing(run: Queued, since: int) | Recorded(run: Queued)

  function LocalDate(t: int, offset: int): int {
    (t + offset * MINUTE) / DAY
  }

  /** Monday is 0; day 0 of the clock was a Thursday. */
  function Weekday(date: int): int {
    (date + 3) % 7
  }

  function TimeOfDay(t: int, offset: int): int {
    (t + offset * MINUTE) % DAY
  }

  predicate IsDue(c: Candidate, now: int) {
    match c.schedule
    case None => false
    case Some(s) =>
      && (s.weekdays == {} || Weekday(LocalDate(now, s.offset)) in s.weekdays)
      && TimeOfDay(now, s.offset) >= (s.hour * 60 + s.minute) * MINUTE
      && (c.lastRun.Some? ==> LocalDate(c.lastRun.value, s.offset) < LocalDate(now, s.offset))
  }

  /** Day 4 of the clock was a Monday, and the days follow each other. */
  lemma DaysOfTheWeek(date: int)
    ensures Weekday(4) == 0 && 0 <= Weekday(date) <= 6
    ensures Weekday(date + 1) == if Weekday(date) == 6 then 0 else Weekday(date) + 1
  {
  }

  /**
   * In figures: when the local clock, `offset` minutes ahead, shows day d and
   * the time of day `time`, in microseconds, a rule is due exactly on its
   * weekdays, from its time on, if its last run was before that day's midnight.
   */
  lemma DueInFigures(c: Candidate, now: int, d: int, time: int)
    requires c.schedule.Some? && 0 <= time < 86_400_000_000
    requires now + c.schedule.value.offset * 60_000_000 == d * 86_400_000_000 + time
    ensures var s := c.schedule.value;
            IsDue(c, now) <==>
              && (s.weekdays == {} || (d - 4) % 7 in s.weekdays)
              && time >= s.hour * 3_600_000_000 + s.minute * 60_000_000
              && (c.lastRun.Some? ==> c.lastRun.value + s.offset * 60_000_000 < d * 86_400_000_000)
  {
  }

  /** The newest recorded run, as the query over the run table finds it. */
  function LastRun(log: seq<Record>, id: Id): (t: Option<int>)
    ensures t.None? <==> forall i :: 0 <= i < |log| ==> log[i].id != id
    ensures t.Some? ==> exists i :: 0 <= i < |log| && log[i] == Record(id, t.value)
    ensures t.Some? ==> forall i :: 0 <= i < |log| && log[i].id == id ==> log[i].createdAt <= t.value
  {
    if log == [] then None
    else
      var (rest, last) := (LastRun(log[..|log| - 1], id), log[|log| - 1]);
      if last.id == id && (rest.None? || rest.value < last.createdAt) then
        assert log[|log| - 1] == Record(id, last.createdAt);
        Some(last.createdAt)
      else
        rest
  }

  lemma DatesAreOrdered(t: int, u: int, offset: int)
    requires t <= u
    ensures LocalDate(t, offset) <= LocalDate(u, offset)
  {
  }

  /** With all runs in the past, a rule is due on its days, from its time on, until it has run that day. */
  lemma {:induction false} DueExactly(c: Candidate, log: seq<Record>, now: int)
    requires c.lastRun == LastRun(log, c.id)
    requires forall i :: 0 <= i < |log| ==> log[i].createdAt <= now
    ensures IsDue(c, now) <==>
      && c.schedule.Some?
      && var s := c.schedule.value;
      && (s.weekdays == {} || Weekday(LocalDate(now, s.offset)) in s.weekdays)
      && TimeOfDay(now, s.offset) >= (s.hour * 60 + s.minute) * MINUTE
      && forall i :: 0 <= i < |log| && log[i].id == c.id ==> LocalDate(log[i].createdAt, s.offset) != LocalDate(now, s.offset)
  {
    if c.schedule.Some? {
      var offset := c.schedule.value.offset;
      forall i | 0 <= i < |log| && log[i].id == c.id
        ensures LocalDate(log[i].createdAt, offset) <= LocalDate(c.lastRun.value, offset) <= LocalDate(now, offset)
      {
        DatesAreOrdered(log[i].createdAt, c.lastRun.value, offset);
        DatesAreOrdered(c.lastRun.value, now, offset);
      }
    }
  }

  function TimesQueued(queue: seq<Queued>, id: Id): nat {
    if queue == [] then 0 else (if queue[0].id == id then 1 else 0) + TimesQueued(queue[1..], id)
  }

  function TimesIn(slot: Slot, id: Id): nat {
    if !slot.Idle? && slot.run.id == id then 1 else 0
  }

  function TimesRunning(slots: seq<Slot>, id: Id): nat {
    if slots == [] then 0 else TimesIn(slots[0], id) + TimesRunning(slots[1..], id)
  }

  /** What is in flight is what is queued or running, each once. */
  ghost predicate HeldOnce(queue: seq<Queued>, slots: seq<Slot>, ids: set<Id>) {
    forall id :: TimesQueued(queue, id) + TimesRunning(slots, id) == if id in ids then 1 else 0
  }

  lemma {:induction false} QueuedAppend(queue: seq<Queued>, r: Queued, id: Id)
    ensures TimesQueued(queue + [r], id) == TimesQueued(queue, id) + if r.id == id then 1 else 0
  {
    if queue != [] {
      assert (queue + [r])[1..] == queue[1..] + [r];
      QueuedAppend(queue[1..], r, id);
    }
  }

  lemma {:induction false} IsQueued(queue: seq<Queued>, i: nat)
    requires i < |queue|
    ensures TimesQueued(queue, queue[i].id) >= 1
  {
    if i > 0 {
      IsQueued(queue[1..], i - 1);
    }
  }

  lemma {:induction false} SlotChanges(slots: seq<Slot>, i: nat, slot: Slot, id: Id)
    requires i < |slots|
    ensures TimesRunning(slots[i := slot], id) + TimesIn(slots[i], id) == TimesRunning(slots, id) + TimesIn(slot, id)
  {
    if i == 0 {
      assert slots[i := slot][1..] == slots[1..];
    } else {
      assert slots[i := slot][1..] == slots[1..][i - 1 := slot];
      SlotChanges(slots[1..], i - 1, slot, id);
    }
  }

  lemma {:induction false} AllIdle(slots: seq<Slot>, id: Id)
    requires forall i :: 0 <= i < |slots| ==> slots[i].Idle?
    ensures TimesRunning(slots, id) == 0
  {
    if slots != [] {
      AllIdle(slots[1..], id);
    }
  }

  lemma EnqueueHolds(queue: seq<Queued>, slots: seq<Slot>, ids: set<Id>, r: Queued)
    requires HeldOnce(queue, slots, ids)
    ensures HeldOnce(queue + [r], slots, ids + {r.id}) <==> r.id !in ids
  {
    hide TimesQueued, TimesRunning;
    forall id ensures TimesQueued(queue + [r], id) == TimesQueued(queue, id) + if r.id == id then 1 else 0 {
      QueuedAppend(queue, r, id);
    }
    assert TimesQueued(queue, r.id) + TimesRunning(slots, r.id) == if r.id in ids then 1 else 0;
  }

  lemma TakeHolds(queue: seq<Queued>, slots: seq<Slot>, ids: set<Id>, i: nat, since: int)
    requires HeldOnce(queue, slots, ids) && i < |slots| && slots[i].Idle? && queue != []
    ensures HeldOnce(queue[1..], slots[i := Executing(queue[0], since)], ids)
  {
    forall id ensures TimesQueued(queue[1..], id) + TimesRunning(slots[i := Executing(queue[0], since)], id)
                      == if id in ids then 1 else 0
    {
      SlotChanges(slots, i, Executing(queue[0], since), id);
      assert TimesQueued(queue, id) + TimesRunning(slots, id) == if id in ids then 1 else 0;
    }
  }

  lemma RecordHolds(queue: seq<Queued>, slots: seq<Slot>, ids: set<Id>, i: nat)
    requires HeldOnce(queue, slots, ids) && i < |slots| && slots[i].Executing?
    ensures HeldOnce(queue, slots[i := Recorded(slots[i].run)], ids)
  {
    forall id ensures TimesRunning(slots[i := Recorded(slots[i].run)], id) == TimesRunning(slots, id) {
      SlotChanges(slots, i, Recorded(slots[i].run), id);
    }
  }

  lemma ReleaseHolds(queue: seq<Queued>, slots: seq<Slot>, ids: set<Id>, i: nat)
    requires HeldOnce(queue, slots, ids) && i < |slots| && !slots[i].Idle?
    ensures slots[i].run.id in ids && HeldOnce(queue, slots[i := Idle], ids - {slots[i].run.id})
  {
    hide TimesQueued, TimesRunning;
    forall id ensures TimesRunning(slots[i := Idle], id) + TimesIn(slots[i], id) == TimesRunning(slots, id) {
      SlotChanges(slots, i, Idle, id);
    }
    var taken := slots[i].run.id;
    assert TimesQueued(queue, taken) + TimesRunning(slots, taken) == if taken in ids then 1 else 0;
  }

  /** Whatever else is queued or running belongs to another automation. */
  lemma HeldApart(queue: seq<Queued>, slots: seq<Slot>, ids: set<Id>, i: nat)
    requires HeldOnce(queue, slots, ids) && i < |slots| && !slots[i].Idle?
    ensures forall k :: 0 <= k < |queue| ==> queue[k].id != slots[i].run.id
    ensures forall k :: 0 <= k < |slots| && k != i && !slots[k].Idle? ==> slots[k].run.id != slots[i].run.id
  {
    hide TimesQueued, TimesRunning;
    var id := slots[i].run.id;
    assert TimesQueued(queue, id) + TimesRunning(slots, id) <= 1;
    SlotChanges(slots, i, Idle, id);
    forall k | 0 <= k < |queue| ensures queue[k].id != id {
      IsQueued(queue, k);
    }
    forall k | 0 <= k < |slots| && k != i && !slots[k].Idle? ensures slots[k].run.id != id {
      SlotChanges(slots[i := Idle], k, Idle, id);
    }
  }

  /** Every run of r's automation fell on a day before the one r was scheduled for. */
  ghost predicate AllEarlier(log: seq<Record>, r: Queued, offset: int) {
    forall i :: 0 <= i < |log| && log[i].id == r.id ==> LocalDate(log[i].createdAt, offset) < LocalDate(r.scheduledAt, offset)
  }

  /** The runs of each automation fall on strictly increasing local dates. */
  ghost predicate OnDifferentDays(log: seq<Record>, offsets: Id -> int) {
    forall i, j :: 0 <= i < j < |log| && log[i].id == log[j].id ==>
      LocalDate(log[i].createdAt, offsets(log[i].id)) < LocalDate(log[j].createdAt, offsets(log[i].id))
  }

  /** No queued run would be a second one on its date. */
  ghost predicate QueueReady(queue: seq<Queued>, log: seq<Record>, offsets: Id -> int) {
    forall r :: r in queue ==> AllEarlier(log, r, offsets(r.id))
  }

  lemma ReadyWithMore(queue: seq<Queued>, log: seq<Record>, offsets: Id -> int, r: Queued)
    ensures QueueReady(queue + [r], log, offsets) <==> QueueReady(queue, log, offsets) && AllEarlier(log, r, offsets(r.id))
  {
    hide AllEarlier;
    assert r in queue + [r] && forall q :: q in queue + [r] <==> q in queue || q == r;
  }

  ghost predicate SlotsReady(slots: seq<Slot>, log: seq<Record>, clock: int, offsets: Id -> int) {
    forall i :: 0 <= i < |slots| && slots[i].Executing? ==>
      slots[i].run.scheduledAt <= slots[i].since <= clock && AllEarlier(log, slots[i].run, offsets(slots[i].run.id))
  }

  /** A run recorded after it was scheduled falls on a later date than the runs that were before its scheduled date. */
  lemma RecordKeepsDays(log: seq<Record>, r: Queued, createdAt: int, offsets: Id -> int)
    requires OnDifferentDays(log, offsets) && AllEarlier(log, r, offsets(r.id)) && r.scheduledAt <= createdAt
    ensures OnDifferentDays(log + [Record(r.id, createdAt)], offsets)
  {
    DatesAreOrdered(r.scheduledAt, createdAt, offsets(r.id));
    hide LocalDate;
    RecordKeepsDaysExactly(log, r, createdAt, offsets);
  }

  lemma RecordKeepsReady(queue: seq<Queued>, slots: seq<Slot>, ids: set<Id>, log: seq<Record>, clock: int, offsets: Id -> int,
                         i: nat, createdAt: int)
    requires HeldOnce(queue, slots, ids)
    requires QueueReady(queue, log, offsets) && SlotsReady(slots, log, clock, offsets)
    requires i < |slots| && slots[i].Executing?
    ensures QueueReady(queue, log + [Record(slots[i].run.id, createdAt)], offsets)
    ensures SlotsReady(slots[i := Recorded(slots[i].run)], log + [Record(slots[i].run.id, createdAt)], clock, offsets)
  {
    hide HeldOnce;
    HeldApart(queue, slots, ids, i);
  }

  /** The runs recorded after the first n fall on days before the one r was scheduled for. */
  ghost predicate NoneSince(log: seq<Record>, n: nat, r: Queued, offset: int) {
    forall i :: n <= i < |log| && log[i].id == r.id ==> LocalDate(log[i].createdAt, offset) < LocalDate(r.scheduledAt, offset)
  }

  /** A candidate that was due by the runs known when it was read has not run since today exactly if none was recorded since. */
  lemma DueIsEarlierExactly(c: Candidate, log: seq<Record>, n: nat, now: int, offsets: Id -> int)
    requires n <= |log| && c.lastRun == LastRun(log[..n], c.id) && IsDue(c, now)
    requires c.schedule.Some? ==> c.schedule.value.offset == offsets(c.id)
    ensures AllEarlier(log, Queued(c.id, now), offsets(c.id)) <==> NoneSince(log, n, Queued(c.id, now), offsets(c.id))
  {
    hide LocalDate, LastRun;
    forall i | 0 <= i < n && log[i].id == c.id
      ensures LocalDate(log[i].createdAt, offsets(c.id)) < LocalDate(now, offsets(c.id))
    {
      assert log[..n][i] == log[i];
      DatesAreOrdered(log[i].createdAt, c.lastRun.value, offsets(c.id));
    }
  }

  /** The next run of an automation falls on a later date exactly if every earlier one is before it. */
  lemma RecordKeepsDaysExactly(log: seq<Record>, r: Queued, createdAt: int, offsets: Id -> int)
    requires OnDifferentDays(log, offsets)
    ensures OnDifferentDays(log + [Record(r.id, createdAt)], offsets)
       <==> AllEarlier(log, Queued(r.id, createdAt), offsets(r.id))
  {
    hide LocalDate;
    var more := log + [Record(r.id, createdAt)];
    assert more[|log|] == Record(r.id, createdAt) && forall i :: 0 <= i < |log| ==> more[i] == log[i];
  }

  /** An increasing list of due candidates among the first n that were not in flight. */
  ghost predicate Chosen(candidates: seq<Candidate>, now: int, held: set<Id>, from: seq<nat>, n: nat) {
    && (forall k :: 0 <= k < |from| ==>
          from[k] < n && from[k] < |candidates| && IsDue(candidates[from[k]], now) && candidates[from[k]].id !in held)
    && forall j, k :: 0 <= j < k < |from| ==> from[j] < from[k]
  }

  ghost function RunsOf(candidates: seq<Candidate>, now: int, from: seq<nat>): (runs: seq<Queued>)
    requires forall k :: 0 <= k < |from| ==> from[k] < |candidates|
  {
    seq(|from|, k requires 0 <= k < |from| => Queued(candidates[from[k]].id, now))
  }

  lemma NoneChosen(candidates: seq<Candidate>, now: int, held: set<Id>)
    ensures Chosen(candidates, now, held, [], 0) && RunsOf(candidates, now, []) == []
  {
  }

  lemma OneMoreChosen(candidates: seq<Candidate>, now: int, held: set<Id>, from: seq<nat>, n: nat)
    requires Chosen(candidates, now, held, from, n) && n < |candidates|
    ensures Chosen(candidates, now, held, from, n + 1)
    ensures IsDue(candidates[n], now) && candidates[n].id !in held ==>
              && Chosen(candidates, now, held, from + [n], n + 1)
              && RunsOf(candidates, now, from + [n]) == RunsOf(candidates, now, from) + [Queued(candidates[n].id, now)]
  {
  }

  class AutomationActionWorker {
    const maxSize: nat
    const offsets: Id -> int
    var queue: seq<Queued>
    var slots: seq<Slot>
    var inflight: set<Id>
    var log: seq<Record>
    var clock: int

    /** Kept until the worker is stopped, as long as no stale candidate is queued. */
    ghost predicate Valid()
      reads this
    {
      Sound() && QueueReady(queue, log, offsets)
    }

    ghost predicate Sound()
      reads this
    {
      && 0 < maxSize && |queue| <= maxSize
      && HeldOnce(queue, slots, inflight)
      && (forall i :: 0 <= i < |log| ==> log[i].createdAt <= clock)
      && (forall r :: r in queue ==> r.scheduledAt <= clock)
      && SlotsReady(slots, log, clock, offsets)
      && OnDifferentDays(log, offsets)
    }

    constructor (queueSize: int, concurrency: int, offsets: Id -> int, clock: int)
      ensures Valid() && queue == [] && inflight == {} && log == [] && this.offsets == offsets && this.clock == clock
      ensures maxSize == (if queueSize < 1 then 1 else queueSize)
      ensures |slots| == (if concurrency < 1 then 1 else concurrency) && forall i :: 0 <= i < |slots| ==> slots[i].Idle?
    {
      maxSize := if queueSize < 1 then 1 else queueSize;
      this.offsets := offsets;
      queue, inflight, log := [], {}, [];
      var n := if concurrency < 1 then 1 else concurrency;
      slots := seq(n, _ => Idle);
      this.clock := clock;
      new;
      forall id ensures TimesRunning(slots, id) == 0 {
        AllIdle(slots, id);
      }
    }

    method Wait(until: int)
      requires Valid() && clock <= until
      modifies this`clock
      ensures Valid() && clock == until
    {
      clock := until;
    }

    /** Queues a run unless one is in flight or the queue is full. */
    method Enqueue(c: Candidate, now: int) returns (ok: bool)
      requires Sound() && now <= clock
      modifies this`queue, this`inflight
      ensures Sound()
      ensures QueueReady(queue, log, offsets) <==>
                old(QueueReady(queue, log, offsets)) && (ok ==> AllEarlier(log, Queued(c.id, now), offsets(c.id)))
      ensures ok <==> c.id !in old(inflight) && |old(queue)| < maxSize
      ensures ok ==> queue == old(queue) + [Queued(c.id, now)] && inflight == old(inflight) + {c.id}
      ensures !ok ==> queue == old(queue) && inflight == old(inflight)
    {
      ok := c.id !in inflight && |queue| < maxSize;
      if ok {
        EnqueueHolds(queue, slots, inflight, Queued(c.id, now));
        ReadyWithMore(queue, log, offsets, Queued(c.id, now));
        hide HeldOnce, AllEarlier, QueueReady, SlotsReady, OnDifferentDays;
        queue := queue + [Queued(c.id, now)];
        inflight := inflight + {c.id};
      }
    }

    /**
     * One poll, begun at `now`, with the candidates as the first `known`
     * recorded runs have them: due candidates are queued in order, each once;
     * one that is left out was in flight or found the queue full. Those chosen
     * are numbered by `from`. No automation comes to run twice on a date
     * exactly if none of those chosen had a run recorded after it was read.
     */
    method TickOnce(candidates: seq<Candidate>, now: int, ghost known: nat) returns (enqueued: nat, ghost from: seq<nat>)
      requires Valid() && now <= clock && known <= |log|
      requires forall i :: 0 <= i < |candidates| ==> candidates[i].lastRun == LastRun(log[..known], candidates[i].id)
      requires forall i :: 0 <= i < |candidates| && candidates[i].schedule.Some? ==>
                 candidates[i].schedule.value.offset == offsets(candidates[i].id)
      modifies this`queue, this`inflight
      ensures |from| == enqueued && Chosen(candidates, now, old(inflight), from, |candidates|)
      ensures forall k :: 0 <= k < |from| ==> from[k] < |candidates|
      ensures queue == old(queue) + RunsOf(candidates, now, from)
      ensures forall i :: 0 <= i < |candidates| && IsDue(candidates[i], now) ==>
                candidates[i].id in inflight || |queue| == maxSize
      ensures Sound()
      ensures Valid() <==> forall r :: r in RunsOf(candidates, now, from) ==> NoneSince(log, known, r, offsets(r.id))
    {
      hide HeldOnce, AllEarlier, NoneSince, QueueReady, SlotsReady, OnDifferentDays, IsDue, LastRun, Chosen, RunsOf;
      enqueued, from := 0, [];
      NoneChosen(candidates, now, inflight);
      assert queue == queue + RunsOf(candidates, now, from);
      for n := 0 to |candidates|
        invariant Sound() && old(inflight) <= inflight
        invariant |from| == enqueued && Chosen(candidates, now, old(inflight), from, n)
        invariant forall k :: 0 <= k < |from| ==> from[k] < |candidates|
        invariant queue == old(queue) + RunsOf(candidates, now, from)
        invariant forall i :: 0 <= i < n && IsDue(candidates[i], now) ==> candidates[i].id in inflight || |queue| == maxSize
        invariant QueueReady(queue, log, offsets) <==>
                    forall r :: r in RunsOf(candidates, now, from) ==> NoneSince(log, known, r, offsets(r.id))
      {
        OneMoreChosen(candidates, now, old(inflight), from, n);
        if IsDue(candidates[n], now) {
          DueIsEarlierExactly(candidates[n], log, known, now, offsets);
          var ok := Enqueue(candidates[n], now);
          if ok {
            enqueued, from := enqueued + 1, from + [n];
            assert queue == old(queue) + RunsOf(candidates, now, from);
          }
        }
      }
    }

    /** An idle worker takes the oldest run. */
    method Take(i: nat)
      requires Valid() && i < |slots| && slots[i].Idle? && queue != []
      modifies this`queue, this`slots
      ensures Valid() && queue == old(queue)[1..] && slots == old(slots)[i := Executing(old(queue)[0], clock)]
    {
      TakeHolds(queue, slots, inflight, i, clock);
      hide HeldOnce, AllEarlier, OnDifferentDays;
      slots := slots[i := Executing(queue[0], clock)];
      queue := queue[1..];
    }

    /** The run's transaction, begun since the run was taken, is committed. */
    method Commit(i: nat, createdAt: int)
      requires Valid() && i < |slots| && slots[i].Executing? && slots[i].since <= createdAt <= clock
      modifies this`slots, this`log
      ensures Valid() && slots == old(slots)[i := Recorded(old(slots)[i].run)]
      ensures log == old(log) + [Record(old(slots)[i].run.id, createdAt)]
    {
      RecordHolds(queue, slots, inflight, i);
      RecordKeepsReady(queue, slots, inflight, log, clock, offsets, i, createdAt);
      RecordKeepsDays(log, slots[i].run, createdAt, offsets);
      hide HeldOnce, AllEarlier, QueueReady, OnDifferentDays;
      log := log + [Record(slots[i].run.id, createdAt)];
      slots := slots[i := Recorded(slots[i].run)];
    }

    /** A run ends, recorded or not: its automation is no longer in flight. */
    method Release(i: nat)
      requires Valid() && i < |slots| && !slots[i].Idle?
      modifies this`slots, this`inflight
      ensures Valid() && slots == old(slots)[i := Idle]
      ensures inflight == old(inflight) - {old(slots)[i].run.id} && old(slots)[i].run.id in old(inflight)
    {
      ReleaseHolds(queue, slots, inflight, i);
      hide HeldOnce, AllEarlier, QueueReady, OnDifferentDays;
      var id := slots[i].run.id;
      slots := slots[i := Idle];
      inflight := inflight - {id};
    }
  }

  /**
   * A candidate read before a run of its automation was recorded, and queued
   * after that run was released, is due still and waits for a second run on the date.
   */
  method StaleCandidateRunsTwice() returns (w: AutomationActionWorker)
    ensures w.Sound() && !w.Valid() && w.log == [Record(1, DAY)] && w.queue == [Queued(1, DAY)]
    ensures !OnDifferentDays(w.log + [Record(1, DAY)], w.offsets)
  {
    var c := Candidate(1, Some(Schedule(0, 0, 0, {})), LastRun([], 1));
    w := new AutomationActionWorker(1, 1, _ => 0, DAY);
    assert IsDue(c, DAY);
    var _ := w.Enqueue(c, DAY);
    w.Take(0);
    w.Commit(0, DAY);
    w.Release(0);
    var _ := w.Enqueue(c, DAY);
    RecordKeepsDaysExactly(w.log, Queued(1, DAY), DAY, w.offsets);
    assert w.log[0] == Record(1, DAY);
  }
}
