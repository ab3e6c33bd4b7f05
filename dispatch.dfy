/**
 * The filter-and-dispatch loop of main.go's `checkZenhubMessage`, as a pure
 * specification: `ScanUpTo` is the loop's state after it has looked at a
 * prefix of the fetched events, and the lemmas say what that state is in
 * declarative terms (which events are enqueued, with which delays, what the
 * new watermark is, and what happens on a failure).
 *
 * The loop reads every event's CreatedAt text; `stamps[i]` is what that
 * reading gives for the event at index i (None where `stringToTime` panics),
 * and `refused` holds the indices whose task taskqueue.Add fails to add.
 */
module Dispatch {
  import opened Wrappers
  import opened Messages

  /**
   * A task for the "/tasks/post_to_hipchat" worker: the message and the
   * task's delay, a Go time.Duration (so a number of nanoseconds).
   */
  datatype Task = Task(message: string, delay: nat)

  /** Whether the loop is still going, and if not, at which event it stopped. */
  datatype Status = Running | EnqueueFailed(index: nat) | BadTimestamp(index: nat)

  /**
   * The loop's state: the tasks added, `lastMessageTime` (None while it is
   * ""), `count`, and the status.
   */
  datatype Scan = Scan(tasks: seq<Task>, first: Option<string>, count: nat, status: Status)

  /**
   * One iteration for the event `e` at index `i`, whose timestamp reads as
   * `t`, against the watermark's instant `mark`; `refused` is whether
   * taskqueue.Add fails for this event's task.
   */
  function Step(s: Scan, e: Event, i: nat, t: Option<int>, mark: int, refused: bool): Scan
    requires s.status == Running
  {
    match t
    case None => s.(status := BadTimestamp(i))
    case Some(t) =>
      if mark > t then s.(count := s.count + 1)
      else if t == mark then s
      else
        var first := if s.first == None then Some(e.createdAt) else s.first;
        if refused then s.(first := first, status := EnqueueFailed(i))
        else s.(tasks := s.tasks + [Task(CreateMessage(e), s.count)], first := first, count := s.count + 1)
  }

  /** The loop's state after the first `k` events (a stopped loop stays stopped). */
  function ScanUpTo(events: seq<Event>, stamps: seq<Option<int>>, mark: int, refused: set<nat>, k: nat): Scan
    requires |stamps| == |events| && k <= |events|
  {
    if k == 0 then Scan([], None, 1, Running)
    else
      var s := ScanUpTo(events, stamps, mark, refused, k - 1);
      if s.status != Running then s
      else Step(s, events[k - 1], k - 1, stamps[k - 1], mark, k - 1 in refused)
  }

  function ScanAll(events: seq<Event>, stamps: seq<Option<int>>, mark: int, refused: set<nat>): Scan
    requires |stamps| == |events|
  {
    ScanUpTo(events, stamps, mark, refused, |events|)
  }

  /** Once the loop has stopped, the later events change nothing. */
  lemma {:induction false} StopIsFinal(events: seq<Event>, stamps: seq<Option<int>>, mark: int,
                                       refused: set<nat>, k: nat, k2: nat)
    requires |stamps| == |events| && k <= k2 <= |events|
    requires ScanUpTo(events, stamps, mark, refused, k).status != Running
    ensures ScanUpTo(events, stamps, mark, refused, k2) == ScanUpTo(events, stamps, mark, refused, k)
  {
    if k < k2 {
      StopIsFinal(events, stamps, mark, refused, k, k2 - 1);
    }
  }

  // ---------------------------------------------------------------------
  // The declarative description of the loop's result.

  /** The event at index i reads, and is strictly later than the watermark (`!mark.After(t) && !t.Equal(mark)`). */
  predicate IsNewer(stamps: seq<Option<int>>, mark: int, i: nat)
    requires i < |stamps|
  {
    stamps[i].Some? && stamps[i].value > mark
  }

  /** Indices below `k` of the events strictly later than the watermark, in feed order. */
  function Newer(stamps: seq<Option<int>>, mark: int, k: nat): (idx: seq<nat>)
    requires k <= |stamps|
    ensures forall j :: 0 <= j < |idx| ==> idx[j] < k
    ensures forall i: nat :: i in idx <==> i < k && IsNewer(stamps, mark, i)
    ensures forall a, b :: 0 <= a < b < |idx| ==> idx[a] < idx[b]
  {
    if k == 0 then []
    else
      var prev := Newer(stamps, mark, k - 1);
      if IsNewer(stamps, mark, k - 1) then
        assert forall i: nat :: i in prev + [k - 1] <==> i in prev || i == k - 1;
        prev + [k - 1]
      else prev
  }

  /** How many of the first `k` events carry exactly the watermark's instant. */
  function Ties(stamps: seq<Option<int>>, mark: int, k: nat): (n: nat)
    requires k <= |stamps|
    ensures n <= k
  {
    if k == 0 then 0
    else Ties(stamps, mark, k - 1) + (if stamps[k - 1] == Some(mark) then 1 else 0)
  }

  /** The value of `count` when the loop reaches index `i`: one more than the events before it, ties excluded. */
  function DelayAt(stamps: seq<Option<int>>, mark: int, i: nat): nat
    requires i <= |stamps|
  {
    1 + i - Ties(stamps, mark, i)
  }

  /** The task of each listed event: its message, and the count reached at it as the delay. */
  function TasksFor(events: seq<Event>, stamps: seq<Option<int>>, mark: int, idx: seq<nat>): seq<Task>
    requires |stamps| == |events|
    requires forall j :: 0 <= j < |idx| ==> idx[j] < |events|
  {
    seq(|idx|, j requires 0 <= j < |idx| =>
      Task(CreateMessage(events[idx[j]]), DelayAt(stamps, mark, idx[j])))
  }

  function FirstOf(events: seq<Event>, idx: seq<nat>): Option<string>
    requires forall j :: 0 <= j < |idx| ==> idx[j] < |events|
  {
    if idx == [] then None else Some(events[idx[0]].createdAt)
  }

  /** Every one of the first `k` timestamps reads. */
  predicate AllParse(stamps: seq<Option<int>>, k: nat)
    requires k <= |stamps|
  {
    forall i :: 0 <= i < k ==> stamps[i].Some?
  }

  /** taskqueue.Add accepts the task of every newer event below `k`. */
  predicate AcceptedBelow(stamps: seq<Option<int>>, mark: int, refused: set<nat>, k: nat)
    requires k <= |stamps|
  {
    forall i :: 0 <= i < k && IsNewer(stamps, mark, i) ==> i !in refused
  }

  lemma TasksForSnoc(events: seq<Event>, stamps: seq<Option<int>>, mark: int, idx: seq<nat>, i: nat)
    requires |stamps| == |events|
    requires forall j :: 0 <= j < |idx| ==> idx[j] < |events|
    requires i < |events|
    ensures TasksFor(events, stamps, mark, idx + [i])
         == TasksFor(events, stamps, mark, idx) + [Task(CreateMessage(events[i]), DelayAt(stamps, mark, i))]
  {
  }

  /**
   * While the loop runs, it has enqueued exactly the newer events among the
   * first `k`, in feed order and each with the count reached at it, and
   * remembers the first of them.
   */
  lemma {:induction false} ScanRunning(events: seq<Event>, stamps: seq<Option<int>>, mark: int, refused: set<nat>, k: nat)
    requires |stamps| == |events| && k <= |events|
    requires ScanUpTo(events, stamps, mark, refused, k).status == Running
    ensures var s := ScanUpTo(events, stamps, mark, refused, k);
      && s.tasks == TasksFor(events, stamps, mark, Newer(stamps, mark, k))
      && s.first == FirstOf(events, Newer(stamps, mark, k))
      && s.count == DelayAt(stamps, mark, k)
  {
    if k > 0 {
      assert ScanUpTo(events, stamps, mark, refused, k - 1).status == Running;
      ScanRunning(events, stamps, mark, refused, k - 1);
      RunningStep(events, stamps, mark, refused, k);
    }
  }

  /** One iteration of ScanRunning's induction: the event at index k - 1 is looked at and the loop goes on. */
  lemma RunningStep(events: seq<Event>, stamps: seq<Option<int>>, mark: int, refused: set<nat>, k: nat)
    requires |stamps| == |events| && 0 < k <= |events|
    requires var prev := ScanUpTo(events, stamps, mark, refused, k - 1);
      && prev.status == Running
      && prev.tasks == TasksFor(events, stamps, mark, Newer(stamps, mark, k - 1))
      && prev.first == FirstOf(events, Newer(stamps, mark, k - 1))
      && prev.count == DelayAt(stamps, mark, k - 1)
    requires ScanUpTo(events, stamps, mark, refused, k).status == Running
    ensures var s := ScanUpTo(events, stamps, mark, refused, k);
      && s.tasks == TasksFor(events, stamps, mark, Newer(stamps, mark, k))
      && s.first == FirstOf(events, Newer(stamps, mark, k))
      && s.count == DelayAt(stamps, mark, k)
  {
    var idx := Newer(stamps, mark, k - 1);
    var t := stamps[k - 1].value;
    if t > mark {
      assert IsNewer(stamps, mark, k - 1);
      assert Newer(stamps, mark, k) == idx + [k - 1];
      TasksForSnoc(events, stamps, mark, idx, k - 1);
      assert idx != [] ==> (idx + [k - 1])[0] == idx[0];
      assert Ties(stamps, mark, k) == Ties(stamps, mark, k - 1);
    } else {
      assert !IsNewer(stamps, mark, k - 1);
      assert Newer(stamps, mark, k) == idx;
    }
  }

  /** The loop is still running after `k` events exactly when they all read and every newer one was accepted. */
  lemma {:induction false} ScanRunningIff(events: seq<Event>, stamps: seq<Option<int>>, mark: int, refused: set<nat>, k: nat)
    requires |stamps| == |events| && k <= |events|
    ensures ScanUpTo(events, stamps, mark, refused, k).status == Running
        <==> AllParse(stamps, k) && AcceptedBelow(stamps, mark, refused, k)
  {
    if k > 0 {
      ScanRunningIff(events, stamps, mark, refused, k - 1);
    }
  }

  /**
   * The loop stops at the first unreadable timestamp, or at the first newer
   * event whose task taskqueue.Add refuses; either way it has enqueued
   * exactly the newer events before that index.
   */
  lemma {:induction false} ScanStopped(events: seq<Event>, stamps: seq<Option<int>>, mark: int, refused: set<nat>, k: nat)
    requires |stamps| == |events| && k <= |events|
    ensures var s := ScanUpTo(events, stamps, mark, refused, k);
      && (s.status.EnqueueFailed? ==>
            var i := s.status.index;
            && i < k && AllParse(stamps, i + 1) && AcceptedBelow(stamps, mark, refused, i)
            && IsNewer(stamps, mark, i) && i in refused
            && s.tasks == TasksFor(events, stamps, mark, Newer(stamps, mark, i)))
      && (s.status.BadTimestamp? ==>
            var i := s.status.index;
            && i < k && AllParse(stamps, i) && stamps[i].None?
            && AcceptedBelow(stamps, mark, refused, i)
            && s.tasks == TasksFor(events, stamps, mark, Newer(stamps, mark, i)))
  {
    if k > 0 {
      var s := ScanUpTo(events, stamps, mark, refused, k - 1);
      if s.status == Running {
        ScanRunningIff(events, stamps, mark, refused, k - 1);
        ScanRunning(events, stamps, mark, refused, k - 1);
      } else {
        ScanStopped(events, stamps, mark, refused, k - 1);
      }
    }
  }

  lemma {:induction false} TiesGrowSlowly(stamps: seq<Option<int>>, mark: int, k1: nat, k2: nat)
    requires k1 <= k2 <= |stamps|
    ensures Ties(stamps, mark, k1) <= Ties(stamps, mark, k2) <= Ties(stamps, mark, k1) + (k2 - k1)
  {
    if k1 < k2 {
      TiesGrowSlowly(stamps, mark, k1, k2 - 1);
    }
  }

  /** A newer event is not a tie, so the count has grown by the time any later event is reached. */
  lemma DelayGrows(stamps: seq<Option<int>>, mark: int, i: nat, j: nat)
    requires i < j <= |stamps| && IsNewer(stamps, mark, i)
    ensures DelayAt(stamps, mark, i) < DelayAt(stamps, mark, j)
  {
    TiesGrowSlowly(stamps, mark, i + 1, j);
  }

  /**
   * The delays of the tasks the loop adds, in feed order, are at least 1 and
   * strictly increasing, whether or not the loop runs to the end.
   */
  lemma DelaysIncrease(events: seq<Event>, stamps: seq<Option<int>>, mark: int, refused: set<nat>)
    requires |stamps| == |events|
    ensures var tasks := ScanAll(events, stamps, mark, refused).tasks;
      && (forall a :: 0 <= a < |tasks| ==> tasks[a].delay >= 1)
      && (forall a, b :: 0 <= a < b < |tasks| ==> tasks[a].delay < tasks[b].delay)
  {
    var s := ScanAll(events, stamps, mark, refused);
    var n := if s.status.Running? then |events| else s.status.index;
    if s.status.Running? {
      ScanRunning(events, stamps, mark, refused, |events|);
    } else {
      ScanStopped(events, stamps, mark, refused, |events|);
    }
    var idx := Newer(stamps, mark, n);
    assert s.tasks == TasksFor(events, stamps, mark, idx);
    forall a, b | 0 <= a < b < |s.tasks|
      ensures s.tasks[a].delay < s.tasks[b].delay
    {
      assert idx[a] in idx;
      DelayGrows(stamps, mark, idx[a], idx[b]);
    }
  }

  lemma {:induction false} NoneNewer(stamps: seq<Option<int>>, mark: int, k: nat)
    requires k <= |stamps|
    requires forall i :: 0 <= i < k ==> !IsNewer(stamps, mark, i)
    ensures Newer(stamps, mark, k) == []
  {
    if k > 0 {
      NoneNewer(stamps, mark, k - 1);
    }
  }

  /**
   * When every timestamp reads and none is later than the watermark, the
   * loop runs to the end, enqueues nothing and remembers no timestamp.
   */
  lemma NothingNewerNothingEnqueued(events: seq<Event>, stamps: seq<Option<int>>, mark: int, refused: set<nat>)
    requires |stamps| == |events|
    requires AllParse(stamps, |stamps|)
    requires forall i :: 0 <= i < |stamps| ==> stamps[i].value <= mark
    ensures var s := ScanAll(events, stamps, mark, refused);
      s.status == Running && s.tasks == [] && s.first == None
  {
    ScanRunningIff(events, stamps, mark, refused, |events|);
    ScanRunning(events, stamps, mark, refused, |events|);
    NoneNewer(stamps, mark, |events|);
  }

  /** Every timestamp reads, and the feed lists the events newest first. */
  predicate NewestFirst(stamps: seq<Option<int>>) {
    && AllParse(stamps, |stamps|)
    && forall i, j :: 0 <= i < j < |stamps| ==> stamps[j].value <= stamps[i].value
  }

  /**
   * On a newest-first feed, the remembered timestamp is that of the first
   * newer event, the latest in the feed, so scanning the same feed again from
   * its instant enqueues nothing.
   */
  lemma NewestFirstRescanIsQuiet(events: seq<Event>, stamps: seq<Option<int>>, mark: int,
                                 refused: set<nat>, again: set<nat>)
    requires |stamps| == |events|
    requires NewestFirst(stamps)
    requires ScanAll(events, stamps, mark, refused).status == Running
    requires ScanAll(events, stamps, mark, refused).first.Some?
    ensures var idx := Newer(stamps, mark, |events|);
      && |idx| > 0
      && ScanAll(events, stamps, mark, refused).first == Some(events[idx[0]].createdAt)
      && var s := ScanAll(events, stamps, stamps[idx[0]].value, again);
         s.status == Running && s.tasks == [] && s.first == None
  {
    ScanRunning(events, stamps, mark, refused, |events|);
    var idx := Newer(stamps, mark, |events|);
    var n0 := idx[0];
    assert n0 in idx;
    var top := stamps[n0].value;
    forall i | 0 <= i < |stamps|
      ensures stamps[i].value <= top
    {
      if i < n0 {
        assert i !in idx;
      }
    }
    NothingNewerNothingEnqueued(events, stamps, top, again);
  }
}
