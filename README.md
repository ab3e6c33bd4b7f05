# zenhub-update-checker, modelled in Dafny

zenhub-update-checker is a small App Engine service. On each request to `/zenhub` it does the following:
- Reads a watermark, the text of the last notified event's time, from memcache.
- Fetches the first page of the ZenHub event feed.
- Renders every event later than the watermark as an HTML chat message.
- Adds one delayed task per message to the task queue. A second handler posts each message to HipChat.
- Stores the CreatedAt text of the first event it enqueued as the new watermark.

This project models that core in `main.go`: `createMessage`, `stringToTime`, `getLastCheckTime`, `setLastCheckTime` and `checkZenhubMessage`. It proves what those functions guarantee.

Modules, one per file:

- `Wrappers` (`wrappers.dfy`): `Option`.
- `Digits` (`digits.dfy`): zero-padded fixed-width numbers (the timestamp fields) and plain decimals (the `%.0f` issue number). Both are proved inverse to reading digits back.
- `Timestamps` (`timestamps.dfy`): the layout `2006-01-02T15:04:05.000Z` (`TimeFormat`).
  - The layout is a sequence of numeric and literal chunks. It drives both `Format` (`time.Format`) and `Parse` (`stringToTime`). `Parse` returns `None` where the Go code panics.
  - `Instant` maps a date-time to milliseconds since 0000-01-01 in the proleptic Gregorian calendar. Comparing instants is proved to be comparing the dates chronologically.
- `Messages` (`messages.dfy`): `CreateMessage` with the exact templates of the four branches, and what each template contains.
- `Dispatch` (`dispatch.dfy`): the filter-and-enqueue loop as a pure specification.
  - `ScanUpTo` is the loop's state after a prefix of the feed. `stamps[i]` is what the event at index i's CreatedAt reads as. `refused` is the set of indices whose `taskqueue.Add` fails.
  - Lemmas describe the result declaratively: which events are enqueued, with which delays, where the loop stops, and what it remembers.
- `Checker` (`checker.dfy`): one poll cycle.
  - `Poll` is the cycle as a function of the old cache content.
  - The class `Service` holds the two pieces of state the handler changes: the memcache entry `last_check_time` and the task queue. Its methods are the Go functions, step by step. `CheckZenhubMessage` is proved to produce exactly the outcome, queue and cache that `Poll` gives.

Behaviours of the code worth knowing, all modelled as written:
- The new watermark is the CreatedAt of the FIRST event enqueued in feed order, whatever its time. On a newest-first feed that is the latest event (`Checker.PollRerunIsQuiet`). On an oldest-first feed a rerun re-notifies (`Checker.OldestFirstRenotifies`).
- An enqueue failure returns before the watermark is written, so the cache keeps its old value, even though earlier tasks of the same run were added.
- A CreatedAt that does not parse panics the whole request, after the tasks of earlier events were added.
- A task's delay is the loop's `count`. It starts at 1 and grows by one for every event except those whose time equals the watermark. So older events also raise it. The unit of `count` is a `time.Duration`, i.e. nanoseconds.

## Model

| member | source | states |
|---|---|---|
| Digits.Decimal | main.go:87 | `%.0f` of an integral issue number: at least one digit, no leading zero, and reading the digits back gives the number |
| Digits.ValueOfPad | main.go:127 | a number written zero-padded to its field width reads back as that number |
| Digits.PadOfValue | main.go:103 | a fixed-width digit field is the zero-padded rendering of the number it reads as |
| Timestamps.Format | main.go:127 | defines `time.Format` with the layout; `ParseOfFormat` and `FormatOfParse` state that it is the inverse of `Parse` |
| Timestamps.Instant | main.go:156-157 | defines the integer instant that `After` and `Equal` compare; `InstantOrder` states that its order is chronological order |
| Timestamps.ParseWithFormatWith | main.go:127 | parsing with a layout recovers the numbers that formatting with the same layout printed |
| Timestamps.FormatWithParseWith | main.go:103 | a string the layout accepts is exactly the formatting of the numbers read from it |
| Timestamps.Parse | main.go:102-108 | `stringToTime` succeeds only on a non-empty text whose fields are in range (month 1-12, day within its month, hour < 24, ...) |
| Timestamps.ParseOfFormat | main.go:124-128 | the text `setLastCheckTime` stores parses back to the same time |
| Timestamps.FormatOfParse | main.go:175-176 | a CreatedAt that parses is stored unchanged: formatting its time gives back the same text |
| Timestamps.InstantOrder | main.go:156-157 | comparing instants (`After`, `Equal`) is chronological order of the date-time fields, and equal instants are equal times |
| Messages.CreateMessage | main.go:83-100 | defines the renderer: one template per known type name and the fallback; its properties are the lemmas below |
| Messages.ProfileLink | main.go:87 | defines the actor's profile link that opens every known kind's message; `KnownKindNamesActorAndIssue` states what it names |
| Messages.IssueLink | main.go:87 | defines the issue link (organization, repository, `%.0f` of the number); `KnownKindNamesActorAndIssue` states what it names |
| Messages.PlusMessage | main.go:86-87 | a `createPlus` message ends with the issue link followed by the "+1" sentence |
| Messages.TransferMessage | main.go:88-93 | `transferIssue` with equal pipeline names: the message names the pipeline as the place (`が <pipeline> 内で`) and ends with the issue link and the priority-change sentence; with different names: it ends with the move sentence, contains `</b> から <b>`, and names the source pipeline at an earlier position than the destination |
| Messages.BoardMessage | main.go:94-95 | a `createBoard` message ends with the issue link followed by the board-created sentence |
| Messages.KnownKindNamesActorAndIssue | main.go:85-95 | every known kind's message starts with the actor's profile link, contains the issue link, and names the user, organization, repository and issue number |
| Messages.UnknownKindMessage | main.go:96-97 | any other type name renders exactly `[Unknown] type = <type>` and a newline |
| Messages.MessageEndsWithNewline | main.go:83-100 | every message, for every kind, ends with a newline |
| Dispatch.Step | main.go:154-172 | defines one loop iteration: panic on a bad timestamp, `count++` for an older event, `continue` on a tie, otherwise remember the first CreatedAt, then stop on a refused task or add the task and count it; `ScanRunning` and `ScanStopped` state the result |
| Dispatch.ScanUpTo | main.go:153-173 | defines the loop's state after a prefix of the feed (a stopped loop stays stopped); `StopIsFinal`, `ScanRunning`, `ScanRunningIff` and `ScanStopped` state what it is |
| Dispatch.ScanAll | main.go:153-173 | defines the loop's final state; `DelaysIncrease` and the `Poll` lemmas state what it is |
| Dispatch.Newer | main.go:156-159 | the indices of the events strictly later than the watermark, in feed order, and only those |
| Dispatch.StopIsFinal | main.go:167-170 | once the loop has returned, later events change nothing |
| Dispatch.ScanRunning | main.go:153-173 | while the loop runs, the tasks added are exactly those of the newer events so far, in order, with the count reached at each as delay; `lastMessageTime` is the first newer event's CreatedAt |
| Dispatch.ScanRunningIff | main.go:153-170 | the loop is still running exactly when every timestamp so far parses and every newer event's task was accepted |
| Dispatch.ScanStopped | main.go:155-170 | the loop stops at the first unparseable timestamp or the first refused task, and has then added exactly the newer events before it |
| Dispatch.DelayGrows | main.go:157-172 | after a newer event, `count` has grown by the time any later event is reached |
| Dispatch.DelaysIncrease | main.go:151-172 | the delays of the tasks added are at least 1 and strictly increasing, also when the loop stops early |
| Dispatch.NothingNewerNothingEnqueued | main.go:153-173 | a feed with nothing later than the watermark adds no task and leaves `lastMessageTime` empty |
| Dispatch.NewestFirstRescanIsQuiet | main.go:153-173 | on a newest-first feed, scanning again from the remembered timestamp adds nothing |
| Checker.Stamp | main.go:155 | defines what the loop reads from one CreatedAt: its instant, or None where `stringToTime` panics; `NewerMeansLater` uses it |
| Checker.Stamps | main.go:153-155 | the readings of the whole feed, one per event, in order; `StampsAt` states that entry i is the reading of event i |
| Checker.StampsAt | main.go:153-155 | entry i of the readings is the reading of the event at index i |
| Checker.CachedText | main.go:110-122 | defines what `getLastCheckTime` returns; `Service.GetLastCheckTime` is proved to return it |
| Checker.StartMark | main.go:142-147 | defines the watermark's instant: now minus 60 minutes for "", else the parsed text (None where it panics); `PollDefaultWindow` and `PollWatermarkPanic` state its cases |
| Checker.Written | main.go:175-176 | defines the cache after `setLastCheckTime(stringToTime(lastMessageTime))`; `PollCommitsFirstNewer` states what it stores |
| Checker.Cycle | main.go:149-177 | defines the cycle once the watermark is known: the loop, then the commit only if it ran to the end and remembered a time |
| Checker.Poll | main.go:136-178 | defines one poll cycle from the old cache; the `Poll` lemmas below state its properties and `Service.CheckZenhubMessage` is proved to do exactly this |
| Checker.PollDefaultWindow | main.go:142-144 | a cache miss, a cache error or an empty text makes the cycle look back 60 minutes from now |
| Checker.PollWatermarkPanic | main.go:145-147 | the handler panics on the watermark exactly when the cache holds a non-empty text that does not parse, having enqueued and stored nothing |
| Checker.PollEnqueuesNewer | main.go:149-173 | the cycle completes iff every CreatedAt parses and every task is accepted; it then enqueues exactly the later events in feed order; delays are at least 1 and strictly increasing |
| Checker.NewerMeansLater | main.go:154-157 | an event counts as newer exactly when its CreatedAt parses to an instant after the watermark |
| Checker.PollCommitsFirstNewer | main.go:174-177 | a completed cycle stores the first newer event's CreatedAt if memcache.Set succeeds, and leaves the cache alone if nothing was newer |
| Checker.PollFailureLeavesWatermark | main.go:155-170 | a cycle that stops on a bad timestamp or a refused task leaves the cache unchanged and has enqueued exactly the newer events before that index |
| Checker.PollCaughtUpIsQuiet | main.go:153-177 | when nothing is later than the watermark the cycle completes, enqueues nothing and keeps the cache: running it again changes nothing |
| Checker.PollRerunIsQuiet | main.go:136-178 | on a newest-first feed, after a cycle that enqueued something and stored its watermark, a second cycle enqueues nothing and keeps the cache |
| Checker.OldestFirstRenotifies | main.go:160-162 | on a two-event oldest-first feed the stored watermark is the older event's, and the next cycle enqueues the newer event again |
| Checker.Service.GetLastCheckTime | main.go:110-122 | the result is "" exactly on a cache miss, a cache error or an empty cached text, and otherwise the cached text; it is `CachedText` of the cache |
| Checker.Service.SetLastCheckTime | main.go:124-134 | stores the formatted time, which parses back to it, when memcache.Set succeeds; a failure leaves the cache as it was; the queue is untouched |
| Checker.Service.EnqueueNewer | main.go:149-173 | the loop: its status, the tasks appended to the queue and `lastMessageTime` are those of `ScanAll`; a non-empty `lastMessageTime` parses; the cache is untouched |
| Checker.Service.CheckZenhubMessage | main.go:136-178 | the handler: its outcome, the queue and the cache afterwards are those `Poll` gives for the old cache |

## Left out

- HipChat delivery is not part of this model: `sendToHipchat`, the `post_to_hipchat` worker, and the worker's route `/tasks/post_to_hipchat`. It is network I/O outside the core. A task records only its message and delay.
- `fetchZenhubEvent` is not part of this model: the fetched events are a parameter of the cycle. The model does not represent a fetch failure. A transport failure leaves `resp` nil, so reading its body panics the request after the watermark read and before any enqueue: nothing is added and the cache is unchanged. A JSON decode that meets a field of the wrong type keeps the elements with zero-valued fields. An empty CreatedAt then panics in `stringToTime`, as `Checker.PollFailureLeavesWatermark` covers.
- `init` and `handler` only route HTTP requests to `checkZenhubMessage`. The three HTTP-500 outcomes are the `Outcome` values, with no response body.
- App Engine services are parameters of the model:
  - `readFails` says whether `memcache.Get` errs.
  - `refused` is the set of indices whose `taskqueue.Add` fails.
  - `stored` says whether `memcache.Set` stores the entry.
- memcache eviction and expiry are not modelled. Neither is the difference between `ErrNotStored` and other `Set` errors: both are only logged.
- `time.Now()` is the parameter `now`, in milliseconds on the same scale as `Timestamps.Instant`. Go's nanosecond precision below the millisecond is not modelled. Every compared time comes from the millisecond layout, except the 60-minute default window.
- Timestamps.Parse: accepts only the exact fixed-width form of the layout (four-digit year, two-digit fields, three millisecond digits, literal `Z`). Go's `time.Parse` is more lenient for this layout in two ways: it reads the hour with a one-digit form allowed, and its fraction reader accepts a sign among the three millisecond characters. The model rejects such inputs where Go would accept them.
- Messages.Event: the issue number is a `nat`. The feed's float64 `Issue` with a fraction, a negative value or a huge value (where `%.0f` rounds or prints an exponent-free long form) is not modelled.
- Logging (`log.Printf`, `c.Infof`, `c.Errorf`) is left out because it has no effect on state.
- Concurrency is not modelled: overlapping cycles racing on the memcache entry are out of scope. A cycle is one sequential run.
- Checker.Service.EnqueueNewer: the loop of `checkZenhubMessage` is its own method, so the handler's proof stays small. The statements and their order are those of the Go loop.
