/**
 * One poll cycle of main.go's `checkZenhubMessage`, over the two services it
 * changes: the memcache entry that holds the watermark and the task queue
 * that delivers the messages. `Poll` is the cycle as a function of the old
 * state; `Service.CheckZenhubMessage` is the cycle as the Go code runs it,
 * step by step, and is proved to do what `Poll` says.
 */
module Checker {
  import opened Wrappers
  import opened Timestamps
  import opened Messages
  import opened Dispatch

  /** How far back a cycle looks when there is no watermark: 60 minutes, in milliseconds. */
  const LookbackMillis: int := 60 * 60 * 1000

  /** How a request to the handler ends; the last three are HTTP 500 responses. */
  datatype Outcome =
    | Completed
    | EnqueueError(index: nat)       // taskqueue.Add failed for this event: http.Error and return
    | TimestampPanic(index: nat)     // stringToTime panicked on this event's CreatedAt
    | WatermarkPanic                 // stringToTime panicked on the cached watermark

  /** `stringToTime` followed by the instant: how the loop reads a CreatedAt text. */
  function Stamp(s: string): Option<int> {
    match Parse(s)
    case None => None
    case Some(t) => Some(Instant(t))
  }

  /** What the loop reads from each event's CreatedAt, in feed order. */
  function Stamps(events: seq<Event>): (r: seq<Option<int>>)
    ensures |r| == |events|
  {
    if events == [] then [] else [Stamp(events[0].createdAt)] + Stamps(events[1..])
  }

  lemma {:induction false} StampsAt(events: seq<Event>, i: nat)
    requires i < |events|
    ensures Stamps(events)[i] == Stamp(events[i].createdAt)
  {
    if i > 0 {
      StampsAt(events[1..], i - 1);
    }
  }

  /** `getLastCheckTime`: the cached text, or "" on a cache miss or a cache error. */
  function CachedText(cache: Option<string>, readFails: bool): string {
    if readFails then ""
    else match cache
      case None => ""
      case Some(text) => text
  }

  /** The watermark's instant: now minus 60 minutes for "", else the parsed text (None where it panics). */
  function StartMark(text: string, now: int): Option<int> {
    if text == "" then Some(now - LookbackMillis) else Stamp(text)
  }

  datatype PollResult = PollResult(outcome: Outcome, tasks: seq<Task>, cache: Option<string>)

  /** `setLastCheckTime(stringToTime(text))`: the cache after storing the watermark `text`. */
  function Written(cache: Option<string>, text: string, stored: bool): Option<string> {
    match Parse(text)
    case None => cache
    case Some(t) => if stored then Some(Format(t)) else cache
  }

  /**
   * The cycle once the watermark is known: the loop's tasks, and the cache
   * rewritten with the first enqueued event's timestamp only if the loop ran
   * to the end and enqueued something.
   */
  function Cycle(mark: int, cache: Option<string>, events: seq<Event>, refused: set<nat>, stored: bool): PollResult {
    var s := ScanAll(events, Stamps(events), mark, refused);
    match s.status
    case EnqueueFailed(i) => PollResult(EnqueueError(i), s.tasks, cache)
    case BadTimestamp(i) => PollResult(TimestampPanic(i), s.tasks, cache)
    case Running =>
      match s.first
      case None => PollResult(Completed, s.tasks, cache)
      case Some(text) => PollResult(Completed, s.tasks, Written(cache, text, stored))
  }

  /**
   * One poll cycle from the cache's old content. `readFails` says whether
   * memcache.Get errs, `refused` holds the feed indices whose task
   * taskqueue.Add fails to add, `stored` says whether memcache.Set stores
   * the new watermark.
   */
  function Poll(cache: Option<string>, readFails: bool, now: int, events: seq<Event>,
                refused: set<nat>, stored: bool): PollResult
  {
    match StartMark(CachedText(cache, readFails), now)
    case None => PollResult(WatermarkPanic, [], cache)
    case Some(mark) => Cycle(mark, cache, events, refused, stored)
  }

  lemma PollIsCycle(cache: Option<string>, readFails: bool, now: int, events: seq<Event>,
                    refused: set<nat>, stored: bool, mark: int)
    requires StartMark(CachedText(cache, readFails), now) == Some(mark)
    ensures Poll(cache, readFails, now, events, refused, stored) == Cycle(mark, cache, events, refused, stored)
  {
  }

  // ---------------------------------------------------------------------
  // What a poll cycle guarantees.

  /** A cache miss, a cache error or an empty cached text make the cycle look back 60 minutes from now. */
  lemma PollDefaultWindow(cache: Option<string>, readFails: bool, now: int, events: seq<Event>,
                          refused: set<nat>, stored: bool)
    requires readFails || cache == None || cache == Some("")
    ensures Poll(cache, readFails, now, events, refused, stored)
         == Cycle(now - LookbackMillis, cache, events, refused, stored)
  {
  }

  /**
   * The handler panics on the watermark exactly when memcache.Get returns a
   * non-empty text that `stringToTime` cannot parse; it then has enqueued
   * nothing and left the cache alone.
   */
  lemma PollWatermarkPanic(cache: Option<string>, readFails: bool, now: int, events: seq<Event>,
                           refused: set<nat>, stored: bool)
    ensures var p := Poll(cache, readFails, now, events, refused, stored);
      && (p.outcome == WatermarkPanic
          <==> !readFails && cache.Some? && cache.value != "" && Parse(cache.value).None?)
      && (p.outcome == WatermarkPanic ==> p.tasks == [] && p.cache == cache)
  {
    var text := CachedText(cache, readFails);
    if text != "" {
      assert Stamp(text).None? <==> Parse(text).None?;
    }
  }

  /**
   * Against the watermark's instant `mark`, the cycle completes exactly when
   * every CreatedAt parses and taskqueue.Add accepts every task it is given;
   * it then has enqueued one task per event strictly later than the
   * watermark, in feed order, with strictly increasing delays from 1 up.
   */
  lemma PollEnqueuesNewer(cache: Option<string>, readFails: bool, now: int, events: seq<Event>,
                          refused: set<nat>, stored: bool, mark: int)
    requires StartMark(CachedText(cache, readFails), now) == Some(mark)
    ensures var p := Poll(cache, readFails, now, events, refused, stored);
      var stamps := Stamps(events);
      && (p.outcome == Completed
          <==> AllParse(stamps, |events|) && AcceptedBelow(stamps, mark, refused, |events|))
      && (p.outcome == Completed ==> p.tasks == TasksFor(events, stamps, mark, Newer(stamps, mark, |events|)))
      && (forall a :: 0 <= a < |p.tasks| ==> p.tasks[a].delay >= 1)
      && (forall a, b :: 0 <= a < b < |p.tasks| ==> p.tasks[a].delay < p.tasks[b].delay)
  {
    var stamps := Stamps(events);
    ScanRunningIff(events, stamps, mark, refused, |events|);
    if ScanAll(events, stamps, mark, refused).status == Running {
      ScanRunning(events, stamps, mark, refused, |events|);
    }
    DelaysIncrease(events, stamps, mark, refused);
  }

  /** The event at index i is later than the watermark exactly when its CreatedAt parses to a later instant. */
  lemma NewerMeansLater(events: seq<Event>, mark: int, i: nat)
    requires i < |events|
    ensures IsNewer(Stamps(events), mark, i)
        <==> Parse(events[i].createdAt).Some? && Instant(Parse(events[i].createdAt).value) > mark
  {
    StampsAt(events, i);
  }

  /**
   * A cycle in which every CreatedAt parses and taskqueue.Add accepts every
   * task (so, by PollEnqueuesNewer, one that completes) stores, if
   * memcache.Set succeeds, the CreatedAt text of the first event later than the watermark
   * (the one the loop met first); one that enqueued nothing leaves the cache
   * alone.
   */
  lemma PollCommitsFirstNewer(cache: Option<string>, readFails: bool, now: int, events: seq<Event>,
                              refused: set<nat>, stored: bool, mark: int)
    requires StartMark(CachedText(cache, readFails), now) == Some(mark)
    requires AllParse(Stamps(events), |events|) && AcceptedBelow(Stamps(events), mark, refused, |events|)
    ensures var p := Poll(cache, readFails, now, events, refused, stored);
      var idx := Newer(Stamps(events), mark, |events|);
      && (idx == [] ==> p.cache == cache)
      && (idx != [] ==> p.cache == (if stored then Some(events[idx[0]].createdAt) else cache))
  {
    var stamps := Stamps(events);
    ScanRunningIff(events, stamps, mark, refused, |events|);
    ScanRunning(events, stamps, mark, refused, |events|);
    var idx := Newer(stamps, mark, |events|);
    if idx != [] {
      var text := events[idx[0]].createdAt;
      assert idx[0] in idx;
      NewerMeansLater(events, mark, idx[0]);
      FormatOfParse(text);
    }
  }

  /**
   * A cycle that stops early, on a timestamp that does not parse or on a
   * task that taskqueue.Add refuses, leaves the cache as it was, and has
   * enqueued exactly the later events before the one it stopped at; a
   * refused task is that of a later event, and nothing after it is enqueued.
   */
  lemma PollFailureLeavesWatermark(cache: Option<string>, readFails: bool, now: int, events: seq<Event>,
                                   refused: set<nat>, stored: bool, mark: int)
    requires StartMark(CachedText(cache, readFails), now) == Some(mark)
    ensures var p := Poll(cache, readFails, now, events, refused, stored);
      var stamps := Stamps(events);
      && (p.outcome != Completed ==> p.cache == cache)
      && (p.outcome.EnqueueError? ==>
            var i := p.outcome.index;
            && i < |events| && IsNewer(stamps, mark, i) && i in refused
            && p.tasks == TasksFor(events, stamps, mark, Newer(stamps, mark, i)))
      && (p.outcome.TimestampPanic? ==>
            var i := p.outcome.index;
            && i < |events| && Parse(events[i].createdAt).None?
            && p.tasks == TasksFor(events, stamps, mark, Newer(stamps, mark, i)))
  {
    var stamps := Stamps(events);
    ScanStopped(events, stamps, mark, refused, |events|);
    var s := ScanAll(events, stamps, mark, refused);
    if s.status.BadTimestamp? {
      StampsAt(events, s.status.index);
    }
  }

  /**
   * When every CreatedAt parses and none is later than the watermark, the
   * cycle completes, enqueues nothing and leaves the cache alone: running it
   * again changes nothing.
   */
  lemma PollCaughtUpIsQuiet(cache: Option<string>, readFails: bool, now: int, events: seq<Event>,
                            refused: set<nat>, stored: bool, mark: int)
    requires StartMark(CachedText(cache, readFails), now) == Some(mark)
    requires forall i :: 0 <= i < |events| ==>
      Parse(events[i].createdAt).Some? && Instant(Parse(events[i].createdAt).value) <= mark
    ensures Poll(cache, readFails, now, events, refused, stored) == PollResult(Completed, [], cache)
  {
    var stamps := Stamps(events);
    forall i | 0 <= i < |events|
      ensures stamps[i].Some? && stamps[i].value <= mark
    {
      StampsAt(events, i);
    }
    NothingNewerNothingEnqueued(events, stamps, mark, refused);
  }

  /**
   * On a feed listed newest first, once a cycle has enqueued something and
   * stored its watermark, a second cycle over the same feed (with no cache
   * error) enqueues nothing and keeps that watermark.
   */
  lemma PollRerunIsQuiet(cache: Option<string>, readFails: bool, now: int, events: seq<Event>,
                         refused: set<nat>, now2: int, refused2: set<nat>, stored2: bool)
    requires NewestFirst(Stamps(events))
    requires Poll(cache, readFails, now, events, refused, true).outcome == Completed
    requires Poll(cache, readFails, now, events, refused, true).tasks != []
    ensures var p := Poll(cache, readFails, now, events, refused, true);
      Poll(p.cache, false, now2, events, refused2, stored2) == PollResult(Completed, [], p.cache)
  {
    var stamps := Stamps(events);
    var mark := StartMark(CachedText(cache, readFails), now).value;
    ScanRunning(events, stamps, mark, refused, |events|);
    NewestFirstRescanIsQuiet(events, stamps, mark, refused, refused2);
    var idx := Newer(stamps, mark, |events|);
    assert idx[0] in idx;
    var text := events[idx[0]].createdAt;
    NewerMeansLater(events, mark, idx[0]);
    FormatOfParse(text);
    StampsAt(events, idx[0]);
    assert StartMark(text, now2) == stamps[idx[0]];
  }

  /**
   * The rerun guarantee rests on the feed's order: on a feed listed oldest
   * first, a cycle stores the OLDER event's timestamp as the watermark, and
   * the next cycle notifies the newer event a second time.
   */
  lemma OldestFirstRenotifies(cache: Option<string>, readFails: bool, now: int, e0: Event, e1: Event,
                              now2: int, stored2: bool)
    requires StartMark(CachedText(cache, readFails), now).Some?
    requires Parse(e0.createdAt).Some? && Parse(e1.createdAt).Some?
    requires StartMark(CachedText(cache, readFails), now).value < Instant(Parse(e0.createdAt).value)
    requires Instant(Parse(e0.createdAt).value) < Instant(Parse(e1.createdAt).value)
    ensures var p := Poll(cache, readFails, now, [e0, e1], {}, true);
      && p == PollResult(Completed, [Task(CreateMessage(e0), 1), Task(CreateMessage(e1), 2)], Some(e0.createdAt))
      && Poll(p.cache, false, now2, [e0, e1], {}, stored2).tasks == [Task(CreateMessage(e1), 1)]
  {
    var events := [e0, e1];
    var mark := StartMark(CachedText(cache, readFails), now).value;
    var stamps := Stamps(events);
    StampsAt(events, 0);
    StampsAt(events, 1);
    assert stamps == [Stamp(e0.createdAt), Stamp(e1.createdAt)];
    assert ScanUpTo(events, stamps, mark, {}, 0) == Scan([], None, 1, Running);
    assert stamps[0] == Some(Instant(Parse(e0.createdAt).value));
    var s1 := ScanUpTo(events, stamps, mark, {}, 1);
    assert s1 == Scan([Task(CreateMessage(e0), 1)], Some(e0.createdAt), 2, Running);
    FormatOfParse(e0.createdAt);
    var mark2 := Stamp(e0.createdAt).value;
    assert StartMark(e0.createdAt, now2) == Some(mark2);
    assert ScanUpTo(events, stamps, mark2, {}, 1) == Scan([], None, 1, Running);
  }

  lemma AppendTail<T>(a: seq<T>, b: seq<T>, x: T)
    ensures (a + b) + [x] == a + (b + [x])
  {
  }

  /** The services a cycle uses: the memcache entry "last_check_time" and the task queue. */
  class Service {
    var memcache: Option<string>
    var queue: seq<Task>

    constructor ()
      ensures memcache == None && queue == []
    {
      memcache := None;
      queue := [];
    }

    /** main.go's `getLastCheckTime`. */
    method GetLastCheckTime(readFails: bool) returns (text: string)
      ensures text == "" <==> readFails || memcache == None || memcache == Some("")
      ensures text != "" ==> memcache == Some(text)
      ensures text == CachedText(memcache, readFails)
    {
      if readFails {
        return "";
      }
      match memcache
      case None => text := "";
      case Some(value) => text := value;
    }

    /** main.go's `setLastCheckTime`; `stored` is whether memcache.Set succeeds (a failure is only logged). */
    method SetLastCheckTime(t: DateTime, stored: bool)
      requires Valid(t)
      modifies this
      ensures memcache == (if stored then Some(Format(t)) else old(memcache))
      ensures stored ==> Parse(memcache.value) == Some(t)
      ensures queue == old(queue)
    {
      if stored {
        memcache := Some(Format(t));
        ParseOfFormat(t);
      }
    }

    /**
     * The loop of main.go's `checkZenhubMessage` over the fetched events,
     * against the watermark's instant `mark`: it enqueues a task for every
     * event strictly later than the watermark, and returns where it stopped
     * and the `lastMessageTime` it remembered.
     */
    method EnqueueNewer(events: seq<Event>, mark: int, refused: set<nat>)
      returns (status: Status, lastMessageTime: string)
      modifies this
      ensures var s := ScanAll(events, Stamps(events), mark, refused);
        && status == s.status
        && queue == old(queue) + s.tasks
        && lastMessageTime == (if s.first.Some? then s.first.value else "")
      ensures lastMessageTime != "" ==> Parse(lastMessageTime).Some?
      ensures memcache == old(memcache)
    {
      ghost var stamps := Stamps(events);
      lastMessageTime := "";
      var count := 1;
      for i := 0 to |events|
        invariant var s := ScanUpTo(events, stamps, mark, refused, i);
          && s.status == Running
          && queue == old(queue) + s.tasks
          && count == s.count
          && lastMessageTime == (if s.first.Some? then s.first.value else "")
          && (s.first.Some? ==> s.first.value != "")
        invariant lastMessageTime != "" ==> Parse(lastMessageTime).Some?
        invariant memcache == old(memcache)
      {
        ghost var s := ScanUpTo(events, stamps, mark, refused, i);
        var value := events[i];
        StampsAt(events, i);
        var parsed := Parse(value.createdAt);
        if parsed.None? {
          StopIsFinal(events, stamps, mark, refused, i + 1, |events|);
          return BadTimestamp(i), lastMessageTime;
        }
        var time := Instant(parsed.value);
        if !(mark > time) {
          if time == mark {
            continue;
          }
          if lastMessageTime == "" {
            lastMessageTime := value.createdAt;
          }
          var message := CreateMessage(value);
          if i in refused {
            StopIsFinal(events, stamps, mark, refused, i + 1, |events|);
            return EnqueueFailed(i), lastMessageTime;
          }
          var task := Task(message, count);
          AppendTail(old(queue), s.tasks, task);
          queue := queue + [task];
        }
        count := count + 1;
      }
      status := Running;
    }

    /** main.go's `checkZenhubMessage`, given the fetched events. */
    method CheckZenhubMessage(now: int, events: seq<Event>, readFails: bool,
                              refused: set<nat>, stored: bool) returns (outcome: Outcome)
      modifies this
      ensures var p := Poll(old(memcache), readFails, now, events, refused, stored);
        outcome == p.outcome && queue == old(queue) + p.tasks && memcache == p.cache
    {
      var lastCheckTimeString := GetLastCheckTime(readFails);
      var lastCheckTime: int;
      if lastCheckTimeString == "" {
        lastCheckTime := now - LookbackMillis;
      } else {
        var parsed := Parse(lastCheckTimeString);
        if parsed.None? {
          return WatermarkPanic;
        }
        lastCheckTime := Instant(parsed.value);
      }
      PollIsCycle(old(memcache), readFails, now, events, refused, stored, lastCheckTime);
      var status, lastMessageTime := EnqueueNewer(events, lastCheckTime, refused);
      match status
      case BadTimestamp(i) =>
        return TimestampPanic(i);
      case EnqueueFailed(i) =>
        return EnqueueError(i);
      case Running =>
        if lastMessageTime != "" {
          SetLastCheckTime(Parse(lastMessageTime).value, stored);
        }
        return Completed;
    }
  }
}
